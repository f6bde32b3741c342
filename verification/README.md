# Verified models of the review tooling

These Dafny modules model the stateful tooling around the reviewer: the corpus that
concurrent harvest runs keep on a bot branch, the spend ledgers of the confidence canary
and the scorer, blind adjudication, the judge and its evaluation gate, and the string code
that has to agree with a structure. Each module holds a model in the form of the code it
follows (methods with loops for loops, functions for expressions, a state machine for the
branch protocol) and the properties the code is relied on for.

`dafny verify dfyconfig.toml` checks the whole project.

## Reading guide

- **Corpus and bot branch** (`CorpusMerge`, `Harvest`, `BranchProtocol`). A run captures the
  branch commit, reads that commit, unions it into a possibly stale checkout of main, appends
  what it harvests, and pushes under a lease on the captured commit. Steps of any number of
  runs interleave with merges of the branch into main and with its deletion. Main only grows,
  a commit's content never changes, and a crashed run takes no further step.
- **Spend** (`Slots`, `SpendBudget`, `Canary`, `Score`, `SpendLifetime`). The world that outlives an
  invocation is the ledger file and the log of calls that really went out. The environment
  decides which writes fail, which calls score, when the clock runs out and where the process
  dies. `SpendLifetime` is about any sequence of invocations.
- **Adjudication** (`RunKeys`, `Adjudication`, `Unblinding`). The shuffle is an arbitrary
  permutation and the truncated digest an arbitrary function guarded by the collision check.
- **Text** (`TableCell`, `JsonScanner`, `Citations`, `PathMatch`, `Endpoint`, with `Texts`). Printers
  and parsers, scanners and searches against a structural definition.
- **Judging** (`EvalGate`, `JudgeRetry`, `ArmComparability`, `ArmScores`). Rates are exact rationals
  rounded half to even.
- **Paging** (`PageWalk`). Any server, and a server that slices a list by a page size of its own.
- `Seqs`, `Numerals` and `Options` hold shared facts.

## Where the code and its description part

- The round trip of the table cell holds up to runs of control characters and line
  separators, which `escapeTableCell` replaces by one space before it escapes
  (`TableCell.PublishedValueRecovered`).
- Both commands are to keep the spend of a work directory under the declared ceilings for its
  lifetime. They keep the calls. The ledger counts calls only, and `cmd_canary` values the
  calls it carries at the projection of the current run, which is made from the environment
  each time. When a declared budget resolves to less than before, the tokens can pass their
  ceiling: under a ceiling of 8192, one call of 8192 and then one call of 1
  (`SpendLifetime.ShrinkingProjectionOverspends`). They cannot while the projection never
  decreases (`SpendLifetime.LifetimeCeilings`); `SpendLifetime.OverspendIff` and
  `SpendLifetime.CanaryOverspendsIff` say when one invocation can take them over.
- `cmd_score` reads the evidence state once to plan the spend and again in the loop. If
  evidence becomes usable in between, the progressive token trigger, which compares the calls
  made so far, lets one call too many through, and does so in every undisturbed run in which
  the ceiling is no whole number of calls and enough slots are live (`Score.OvershootIff`,
  `Score.OvershootExample`). The call ceiling is not affected.
- `validate_arms` takes Booleans for rep ids in one check and leaves them out in another. An
  extra run whose rep id is `false` is accepted when both arms carry it, so an arm can hold
  more runs than scenarios times reps; both arms still hold equally many
  (`ArmComparability.FalseRepIsAccepted`, `ArmScores.DispositionsSumToReps`).
- `redact_url_userinfo` says that a string without an at sign stays byte-identical. A string
  with two `://`, one that does not split, and most strings with an encoded at sign, such as
  `http://h/%40`, become the marker (`Endpoint.WithoutAtUnchanged`).
- `base_url_identity_digest` says that a different path does not compare equal. White space at
  the end of a target, which an empty query or fragment lets through `resolve_endpoint`, is
  stripped before hashing: `http://h/a ?` and `http://h/a` are two targets with one identity
  (`Endpoint.ToldApartIff`, `Endpoint.SpaceSharesIdentity`). For the same reason the redacted
  form of `http://u@h/a ?` resolves to another target (`Endpoint.RedactedElsewhere`,
  `Endpoint.RedactedResolvesTheSame`).
- `resolve_endpoint` looks for an at sign in the path, and for an encoded one in the
  authority, only when the authority has no literal one, so a resolved target need not resolve
  again (`Endpoint.ResolveTwice`).
- `resolve_bot_branch_sha` reads a successful listing without a line as an absent branch. The
  model keeps that answer, and the lease rejects the push that would follow
  (`BranchProtocol.BlankAnswerIsHarmless`).
- `cmd_pack` says that two findings can only share an id by a collision of the digest. The text
  it digests joins pull request, arm, label and place with bars, so an arm `a|b` on `x` and an
  arm `b` on `x|a` share their ids under every digest and the command aborts
  (`Adjudication.BarsCollide`). Without bars in arms and pull requests it cannot happen
  (`Adjudication.PlainNamesNeverCollide`).
- A canary plan may repeat an entry, and a condition may be requested twice; the rows then
  repeat. A pair that was reached once gets no filler for its second place
  (`Canary.RowsInLoopOrder`, `Score.RowsInLoopOrder`).

## Model

| member | source | states |
|---|---|---|
| `CorpusMerge.MergeVulnerable` | scripts/merge_bot_branch_corpus.py:198-215 | the loop over the bot list with its seen-id set computes the union: main's usable entries, then the bot entries whose id is new |
| `CorpusMerge.ValidEntriesFacts` | scripts/merge_bot_branch_corpus.py:188-196 | what the merge looks at are the objects with a non-empty string id, and only those |
| `CorpusMerge.MergeIsUnion` | scripts/merge_bot_branch_corpus.py:198-215 | the ids of the merge are exactly the ids of both sides, main's usable entries are an unchanged prefix, and no appended id repeats an earlier one, main's included |
| `CorpusMerge.NewOnesPositions` | scripts/merge_bot_branch_corpus.py:203-215 | what is appended are exactly the bot entries that first show an id main does not have, in their relative order |
| `CorpusMerge.MergeAssociative` | scripts/merge_bot_branch_corpus.py:198-215 | merging three lists gives one result, however they are grouped |
| `CorpusMerge.MergeIdempotent` | scripts/merge_bot_branch_corpus.py:198-215 | merging the same branch again changes nothing |
| `CorpusMerge.MergeUniqueIds` | scripts/merge_bot_branch_corpus.py:206-214 | the merged ids are unique exactly when main's own usable ids were |
| `Harvest.BuildEntries` | scripts/harvest_human_findings.py:510-565 | the loop with its per-series counters and growing id set makes the specified entries, and entries, files missing and ids present add up to the findings |
| `Harvest.BuildIsExact` | scripts/harvest_human_findings.py:533-563 | the new entries carry exactly the ids of the findings that were not known, each once |
| `Harvest.BuildPositions` | scripts/harvest_human_findings.py:510-565 | each finding with a file whose id shows up for the first time makes one entry with its own contents, in the order of the findings, and nothing else makes one |
| `Harvest.RankCounts` | scripts/harvest_human_findings.py:527-529 | the number in an id counts the findings so far that have a file and are about the same pull request and head |
| `Harvest.HeadsMatch` | scripts/harvest_human_findings.py:334-336 | two heads are told apart by exactly their first eight characters |
| `Harvest.LaterIds` | scripts/harvest_human_findings.py:334-336 | the first entry of a head has the bare id, the later ones are numbered from two on |
| `Harvest.NoFileCounts` | scripts/harvest_human_findings.py:523-525 | the first count is the number of findings without a file |
| `Harvest.RerunAddsNothing` | scripts/harvest_human_findings.py:533-535 | a second harvest of known findings adds nothing |
| `Harvest.IncrementalIsBatch` | scripts/harvest_human_findings.py:510-565 | harvesting f and later f + g gives the entries of harvesting f + g at once |
| `Harvest.EntryIdInjective` | scripts/harvest_human_findings.py:334-336 | for repositories without '#' and heads without '-', an id determines repository, number, head prefix and sequence number |
| `Harvest.IdsDistinct` | scripts/harvest_human_findings.py:527-531 | no two findings of one list get the same id |
| `Harvest.NothingLost` | scripts/harvest_human_findings.py:510-565 | from an empty corpus no finding that has a file is dropped |
| `Harvest.UnplainSeriesCollide` | scripts/harvest_human_findings.py:334-336 | outside those repositories and heads two different findings can share an id |
| `BranchProtocol.NoEntryLost` | scripts/merge_bot_branch_corpus.py:10-35 | in every interleaving of any number of runs with branch merges and branch deletions, every id ever on the bot branch is on the branch or on main |
| `BranchProtocol.PushedContent` | scripts/push_harvest_branch.sh:65-88 | a push that goes through replaces exactly the commit whose content its run merged, and publishes that content and more |
| `BranchProtocol.CarriedContent` | scripts/merge_bot_branch_corpus.py:198-215 | at any point of any interleaving, what a run carries into its harvest is its checkout of main and the entries of the captured commit with an id that the checkout lacks |
| `BranchProtocol.HarvestStep` | scripts/harvest_human_findings.py:631-641 | the harvest step keeps the working copy and appends exactly the harvested ids that the working copy, branch entries included, does not have; with none of them it changes nothing |
| `BranchProtocol.UndisturbedRun` | scripts/push_harvest_branch.sh:65-88 | a run that nothing interferes with publishes main, the branch entries main lacks and the new findings, and leaves the branch alone only when that is main itself |
| `BranchProtocol.BlankAnswerIsHarmless` | scripts/merge_bot_branch_corpus.py:107-114 | a listing that answers with nothing although the branch is there makes the run's push fail and changes no content |
| `BranchProtocol.FailedReadNeverPushes` | scripts/merge_bot_branch_corpus.py:250-310 | a run that failed to list the branch, or to read its content, never pushes afterwards |
| `BranchProtocol.LeaseIsNeeded` | scripts/merge_bot_branch_corpus.py:26-35 | two overlapping runs reach a state where a push without the lease would lose an entry; with the lease it is rejected |
| `BranchProtocol.WorkingCopyIdsUnique` | scripts/harvest_human_findings.py:631-641 | at any point of any interleaving the working copy a run has harvested into, and the content it pushes, repeat an id exactly when the run's checkout of main did |
| `SpendBudget.ProjectSpendBudget` | scripts/confidence_calibration.py:158-232 | for completion and for prompt tokens alike: the aggregate is the largest budget of any condition, called declared exactly when a declaration is that largest value, the documented default without conditions; and one record per condition |
| `SpendBudget.DeclaredRoundTrip` | scripts/confidence_calibration.py:128-145 | the decimal text of every safe positive integer declares that integer, whatever JavaScript white space stands around it |
| `SpendBudget.DeclaredIff` | scripts/confidence_calibration.py:128-145 | a text is a declaration exactly when it is a run of ASCII digits between JavaScript white space whose value is a safe positive integer, and then declares that value; otherwise the default holds |
| `SpendBudget.StrayCharacter` | scripts/confidence_calibration.py:140-145 | one character that is neither a digit nor such white space, as in 8k, makes the text no declaration |
| `SpendBudget.SpendWithin` | scripts/confidence_calibration.py:158-232 | calls within a ceiling, each within the projection, spend within the token ceiling |
| `Canary.CanaryRow` | scripts/confidence_calibration.py:2131-2147 | no call without usable evidence, a ledger failure exactly for usable evidence and an unwritable ledger, else a call with the score of its answer; the ledger is written before the dispatch; at any point of death at most one recorded call was not dispatched |
| `Canary.CutOffsNeverFire` | scripts/confidence_calibration.py:2302-2329 | after a sweep was let start its call and token cut-offs cannot fire |
| `Canary.SweepEntry` | scripts/confidence_calibration.py:2359-2420 | one entry's rows, silenced fallbacks included, keep ledger, wire, counter and rows in step, or stop for the clock or the ledger, for any plan |
| `Canary.FillRows` | scripts/confidence_calibration.py:2422-2453 | after a stop the added rows are one for every pair of the plan that no row has, in loop order, and made no call |
| `Canary.RunCanary` | scripts/confidence_calibration.py:2188-2494 | refusal exactly for an unreadable ledger or a worst case over a ceiling; every dispatched call recorded first; a finished run sent exactly the budgets of its rows, recorded exactly its calls, stays within both ceilings at its projection, and leaves the explained rows of the pairs reached and a filler for every other pair |
| `Canary.ReachedRow` | scripts/confidence_calibration.py:2131-2147 | in a finished run a row that took its turn is a row without a call exactly for unusable evidence, a ledger failure exactly for usable evidence and an unwritable ledger, and else a call with the score of its answer |
| `Canary.WhyStopped` | scripts/confidence_calibration.py:2402-2420 | a finished run stopped early only because the clock had run out when a pair was due, or right behind a row that found the ledger unwritable, and such a row is always the last one reached |
| `Canary.RowsInLoopOrder` | scripts/confidence_calibration.py:2359-2453 | a finished run that reached everything has the rows of all pairs in loop order; when no entry and no condition is repeated, every finished run has them, each pair exactly once |
| `Canary.FallbackBeforePrimary` | scripts/confidence_calibration.py:2359-2373 | a fallback selected no later than its primary is never silenced, whatever the primary scores |
| `Canary.SilencedIff` | scripts/confidence_calibration.py:2368-2401 | in any finished run, repeated conditions included, a row is silenced exactly when its condition is a fallback whose primary last took its turn before it in the same entry with a call that scored |
| `Canary.FallbackAfterPrimary` | scripts/confidence_calibration.py:2368-2401 | a fallback selected after its primary is silenced exactly when the primary's call scored |
| `Score.Dispatch` | scripts/confidence_calibration.py:1481-1517 | the live branch records the spend before it calls, aborts on a failed write, and never records a total the triggers forbid |
| `Score.Turn` | scripts/confidence_calibration.py:1310-1560 | one slot becomes exactly one row of the documented kind, or stops the sweep at a live slot for a budget |
| `Score.FillRows` | scripts/confidence_calibration.py:1574-1605 | after a stop the added rows are one for every owned slot that no row has, in loop order, and none of them made a wire attempt |
| `Score.RunScore` | scripts/confidence_calibration.py:1079-1646 | refusal exactly for an unreadable ledger or a worst case over a ceiling; ledger and wire never disagree by more than one call; a finished run leaves the explained rows of the slots reached, in order, and a filler for every other slot, for any selection |
| `Score.DefaultSelection` | scripts/confidence_calibration.py:1102-1102 | a run that names no condition selects exactly the conditions of the plan that are not the baseline, in plan order |
| `Score.DefaultRunCovers` | scripts/confidence_calibration.py:1102-1605 | so it leaves a row for every pull request, every condition that is not the baseline, and every repeat |
| `Score.RunRow` | scripts/confidence_calibration.py:1310-1560 | a row that was run is disabled exactly for the baseline or unusable evidence, scored exactly for a prepared prompt and a scoring answer, else unscored; a wire attempt was made exactly by a live condition with usable evidence and a prepared prompt |
| `Score.FilledRow` | scripts/confidence_calibration.py:1574-1605 | a filler is out of budget unless it could not have been scored anyway; a sweep stops early only at a live slot on usable evidence with a ceiling reached or the clock run out |
| `Score.CarriedIsLargest` | scripts/confidence_calibration.py:1190-1227 | the spend carried into a run is the largest of the ledger, the rows of the merged file and that file's own total |
| `Score.RowsInLoopOrder` | scripts/confidence_calibration.py:1310-1605 | a finished run that reached everything has the rows of all its slots in loop order; when no condition was requested twice, every finished run has them, each (pull request, condition, repeat) exactly once |
| `Score.OnlyTheClockStops` | scripts/confidence_calibration.py:1253-1281 | while the evidence stays as it was when planned, only the wall clock stops a sweep that was let start |
| `Score.OvershootIff` | scripts/confidence_calibration.py:1229-1281 | a run that was let start records more than the token ceiling only if the ceiling is no whole number of calls and one more call is open to it, and does so in every run that clock, disk and death leave alone |
| `Score.OvershootExample` | scripts/confidence_calibration.py:1229-1281 | a run of the command whose evidence turns usable after planning ends with one call recorded and sent that is worth 4096 times its token ceiling |
| `Score.RepeatedConditionsRepeatRows` | scripts/confidence_calibration.py:1094-1100 | the slots of a run are distinct exactly when no condition was requested twice |
| `Score.MergeReplacesSelected` | scripts/confidence_calibration.py:1623-1635 | after a merge a re-selected condition has exactly its fresh rows and every other condition exactly the rows it had |
| `Score.MergeKeepsTriplesUnique` | scripts/confidence_calibration.py:1623-1635 | merging files without repeated (pull request, condition, repeat) gives none |
| `Score.MergeConditions` | scripts/confidence_calibration.py:1629-1635 | the merged condition list is the old conditions that were not re-run, then the selected ones, without repeats |
| `Score.MergeAfterRun` | scripts/confidence_calibration.py:1574-1635 | a finished run merged over a file keeps one row per slot of its conditions and the other rows untouched |
| `SpendLifetime.LifetimeCalls` | scripts/confidence_calibration.py:2265-2348 | over every sequence of invocations and ledger damage, each invocation with a projection of its own, crashes included: calls dispatched ≤ ledger ≤ call ceiling |
| `SpendLifetime.LifetimeTokens` | scripts/confidence_calibration.py:2302-2315 | over every such sequence the tokens of all calls pass the token ceiling only after the projection has shrunk |
| `SpendLifetime.LifetimeCeilings` | scripts/confidence_calibration.py:2265-2348 | so both ceilings hold over every sequence whose projection never decreases |
| `SpendLifetime.LedgerNeverDecreases` | scripts/confidence_calibration.py:1045-1063 | a readable ledger never decreases, the wire log only grows, and after damage nothing is spent any more |
| `SpendLifetime.OverspendIff` | scripts/confidence_calibration.py:2302-2315 | an invocation that was let start can overspend exactly when what went out already leaves no room for its planned calls at its projection |
| `SpendLifetime.InvokeCanary` | scripts/confidence_calibration.py:2188-2494 | every canary run is such an invocation, at the projection of its plan |
| `SpendLifetime.InvokeScore` | scripts/confidence_calibration.py:1079-1646 | so is every score run on stable evidence; on any evidence it keeps the call ceiling and passes the token ceiling by less than one call |
| `SpendLifetime.CanaryOverspendsIff` | scripts/confidence_calibration.py:2302-2355 | a canary run overspends only if the calls sent before leave no room for one call of every entry and selected condition, and then does when every call is made and none scores |
| `SpendLifetime.ShrinkingProjectionOverspends` | scripts/confidence_calibration.py:2247-2315 | two runs of the command, the declared budget resolved to a large value and then to a small one, send more tokens than the ceiling |
| `SpendLifetime.ShrinkingHistory` | scripts/confidence_calibration.py:2247-2315 | those two runs are a history whose tokens pass the ceiling |
| `RunKeys.Collect` | scripts/eval_adjudicate.py:159-177 | the first pass refuses exactly the mixed identity schemas and conflicting descriptions, and otherwise lists every run |
| `RunKeys.ConsistentIff` | scripts/eval_adjudicate.py:159-175 | what is refused: some scenarios with an id and some without, or one scenario key with two descriptions |
| `RunKeys.RunsOfReports` | scripts/eval_adjudicate.py:102-178 | the collected runs are those of the reports in order, scenario by scenario and mode by mode, runs without findings included |
| `RunKeys.AssignReps` | scripts/eval_adjudicate.py:180-202 | the counters give every run its label; an abort would mean a repeated key |
| `RunKeys.LabelledRun` | scripts/eval_adjudicate.py:180-202 | a run keeps its arm, pull request and findings; its label counts the runs of its arm, pull request and mode up to it, and names the mode exactly when another mode has runs there |
| `RunKeys.RepLabelInjective` | scripts/eval_adjudicate.py:114-115 | a label determines its index and, when it carries one, its mode, whatever dots the mode contains |
| `RunKeys.RunKeysDistinct` | scripts/eval_adjudicate.py:180-204 | no two runs ever get one key, so the duplicate-key abort is unreachable |
| `Adjudication.Blind` | scripts/eval_adjudicate.py:205-227 | ids are assigned exactly when none repeats; groups and key file then hold what each id hides |
| `Adjudication.CollisionIff` | scripts/eval_adjudicate.py:205-213 | the abort is taken exactly when two findings have one id, the digest of pull request, arm, label and place between bars |
| `Adjudication.RawTextInjective` | scripts/eval_adjudicate.py:207-208 | for arms and pull requests without a bar that text determines arm, pull request, label and place |
| `Adjudication.PlainNamesNeverCollide` | scripts/eval_adjudicate.py:205-213 | so with such names and a digest without collisions pack never aborts |
| `Adjudication.BarsCollide` | scripts/eval_adjudicate.py:205-213 | with a bar in a name two arms share an id under every digest |
| `Adjudication.Deal` | scripts/eval_adjudicate.py:237-240 | the packets are the round-robin of the shuffled groups and together hold each group once |
| `Adjudication.RoundRobin` | scripts/eval_adjudicate.py:233-236 | group i goes to packet i mod n as its number i div n, and the packets differ by one group at most |
| `Adjudication.PacketsHoldEverything` | scripts/eval_adjudicate.py:229-240 | however groups are ordered, shuffled and dealt, the packets hold each finding exactly once under its id |
| `Adjudication.Pack` | scripts/eval_adjudicate.py:142-252 | pack aborts exactly on an id collision, and otherwise writes packets, key file and roster of all runs |
| `Unblinding.LoadPackets` | scripts/eval_adjudicate.py:259-275 | the findings load by id exactly when no id repeats |
| `Unblinding.LoadVerdicts` | scripts/eval_adjudicate.py:278-296 | the verdicts load exactly when no id repeats and every label is a known one |
| `Unblinding.BuildRunsMap` | scripts/eval_adjudicate.py:336-353 | every run of the roster, also one without findings, gets exactly the judged findings hidden behind its key; no run is added when the roster has them all |
| `Unblinding.KeysOnRoster` | scripts/eval_adjudicate.py:342-350 | every key of the key file is on the roster, so the missing-key branch is not taken |
| `Unblinding.TotalsReport` | scripts/eval_adjudicate.py:356-386 | runs, caught runs, runs caught at least in part, blocker and major findings, their false positives and real others, and runs with such a false positive: each total is the number of places in the runs of the arm that its name says |
| `Unblinding.PacketsLoad` | scripts/eval_adjudicate.py:229-275 | what pack wrote always loads, whatever the shuffles and the number of packets |
| `Unblinding.RunIsRebuilt` | scripts/eval_adjudicate.py:336-353 | the rebuilt run is the original run's findings with their verdicts, up to order |
| `Unblinding.ScoringIsCounting` | scripts/eval_adjudicate.py:142-386 | whatever the shuffles, packets and file orders, each total of the rebuilt runs is the number of runs, or of findings, of the original reports that its name says, under the verdicts of their ids |
| `Unblinding.PackAndScore` | scripts/eval_adjudicate.py:142-486 | the two commands one after the other: refused exactly when the labels do not name each finding's id once and no other, with known answers and a label exactly where one is due; otherwise every total of an arm is the number of runs, or of findings, of the original reports that its name says, under the verdicts written down for their ids |
| `Unblinding.Score` | scripts/eval_adjudicate.py:476-486 | the score side refuses exactly when packets or labels do not load or do not fit, and otherwise reports the numbers of places in the runs it rebuilt |
| `Unblinding.BlockersAreAccountedFor` | scripts/eval_adjudicate.py:313-333 | in accepted verdicts each blocker or major finding is the caught defect or has exactly one of the three labels |
| `TableCell.UnescapeInvertsEscape` | scripts/confidence_dogfood_evidence.py:291-313 | the three replacements and the one entity pass invert the six sequential encodes, for every string |
| `TableCell.EscapeEach` | src/gates/ci-wait.ts:121-129 | the six replacements together write one code for each character and nothing else |
| `TableCell.PublishedValueRecovered` | src/gates/ci-wait.ts:109-129 | the decoded published cell is the value with its control runs collapsed, and the value itself exactly when it had none |
| `TableCell.RunsBecomeSpaces` | src/gates/ci-wait.ts:109-123 | a run of control characters, line and paragraph separators becomes one space, the characters around it stay |
| `TableCell.CellStaysOneCell` | src/gates/ci-wait.ts:112-129 | in a published cell every pipe and backtick stands behind an odd number of backslashes and no line break or angle bracket is left |
| `JsonScanner.BalancedObjectEnd` | pr_reviewer/semantic_judge.py:126-148 | the loop over depth, string and escape flags is the scan |
| `JsonScanner.ScannerFindsObject` | pr_reviewer/semantic_judge.py:126-148 | started at the opening brace of any RFC 8259 object in any text, the scan ends at exactly its closing brace |
| `JsonScanner.FirstSpan` | pr_reviewer/semantic_judge.py:165-177 | the retry loop ends, and returns the object of the least start whose balanced span parses, or nothing when there is none |
| `JsonScanner.FirstJsonObject` | pr_reviewer/semantic_judge.py:151-177 | the stripped text first, then the first fenced block of it that parses, then the first balanced span that does |
| `JsonScanner.ProseThenObject` | pr_reviewer/semantic_judge.py:151-177 | behind text without a brace the printed object is what is found, whatever follows it, unless the whole text or a fenced block is an object too |
| `JsonScanner.FencedObject` | pr_reviewer/semantic_judge.py:159-165 | behind text in which no fence opens, an object in a fenced block is what is found, whatever braces and backquotes stand around or in it, unless the whole text is an object |
| `JsonScanner.WholeTextFirst` | pr_reviewer/semantic_judge.py:152-158 | a text that is an object, up to white space around it, is what is found, whatever fences and braces are in it |
| `JsonScanner.NothingFound` | pr_reviewer/semantic_judge.py:151-177 | nothing is found exactly when neither the stripped text nor a fenced block nor a balanced span from an opening brace is an object |
| `JsonScanner.OpeningIff` | pr_reviewer/semantic_judge.py:159-159 | a fence opens with three back quotes, json, blanks and tabs, and a line feed, and with nothing else |
| `JsonScanner.FenceRules` | pr_reviewer/semantic_judge.py:159-159 | the blocks of a text from left to right: what stands between an opening and the next three back quotes, going on behind them |
| `JsonScanner.FindIff` | pr_reviewer/semantic_judge.py:159-159 | the next three back quotes are the first ones |
| `Citations.CitationAppears` | pr_reviewer/semantic_judge.py:222-235 | true exactly when the needle is non-empty and some occurrence has no alphanumeric neighbour |
| `Citations.NormalizeAppend` | pr_reviewer/semantic_judge.py:218-219 | normalization distributes over concatenation |
| `Citations.ValidateCitations` | pr_reviewer/semantic_judge.py:264-283 | the errors are exactly the citations whose reading, without back quotes, with straight apostrophes and folded, is not a part of that of the text cut off by non-alphanumeric characters |
| `Citations.NormalizeReads` | pr_reviewer/semantic_judge.py:218-219 | the three passes of normalization are one reading character by character |
| `Citations.NoQuotesLeft` | pr_reviewer/semantic_judge.py:218-219 | no normal form holds a back quote or a typographic apostrophe |
| `Citations.AcceptanceIgnores` | pr_reviewer/semantic_judge.py:218-235 | whether a citation is accepted depends neither on typographic apostrophes, nor on back quotes, nor on case, in the citation or in the text |
| `Citations.SettledSearch` | pr_reviewer/semantic_judge.py:222-235 | between texts that have none of these left a citation is accepted exactly when it stands there, cut off on both sides |
| `Citations.VisibleIsQuotable` | pr_reviewer/semantic_judge.py:238-261 | every value shown to the judge, stripped, is accepted as a citation when its normal form is not empty |
| `Citations.FieldsAreShown` | pr_reviewer/semantic_judge.py:250-257 | the values shown of the findings are exactly their five fields that are not empty |
| `Citations.ShownInOrder` | pr_reviewer/semantic_judge.py:250-261 | they are shown in order, finding by finding and the body last, one line behind the other |
| `EvalGate.RateIsOne` | pr_reviewer/semantic_eval.py:1556-1558 | a rate rounded to four places reads 1.0 exactly when at most one run in 20000 failed |
| `EvalGate.RateIsZero` | pr_reviewer/semantic_eval.py:1518-1518 | it reads 0.0 exactly when at most one run in 20000 hit |
| `EvalGate.RateIsNearest` | pr_reviewer/semantic_eval.py:1556-1558 | a rate is the nearest ten-thousandth, the even one of two as near |
| `EvalGate.GateIsTolerance` | pr_reviewer/semantic_eval.py:1452-1455 | the gate passes exactly when some scenario is scored and every scenario is within that tolerance |
| `EvalGate.GateIsHonest` | pr_reviewer/semantic_eval.py:1452-1455 | below 20000 runs a scenario it passes exactly when every reviewer run passed, no negative control was hit and every calibration run matched |
| `EvalGate.OneFailureIn20000` | pr_reviewer/semantic_eval.py:1452-1455 | from 20000 runs on a failing run goes unnoticed |
| `EvalGate.EveryRunIsCounted` | pr_reviewer/semantic_eval.py:1504-1530 | the reviewer and the calibration disposition counts of a scenario together are its runs |
| `JudgeRetry.RunAttempts` | scripts/run_judge_calibration.py:114-139 | the loop stops at the first well-formed attempt; otherwise its surviving variables never look well-formed |
| `JudgeRetry.JudgeDisposition` | scripts/live_judge_score.py:82-131 | the disposition of the first of three answers that parses, quotes only what is there and cites something unless it found nothing, or none; transport is blamed exactly when all three failed in transport; no call follows such an answer |
| `JudgeRetry.GradeReference` | scripts/run_judge_calibration.py:97-147 | passes exactly when the first well-formed attempt has the expected disposition |
| `JudgeRetry.OnlyTheFirstCounts` | scripts/run_judge_calibration.py:131-139 | attempts after the first well-formed one, and ill-formed ones before it, cannot change the verdict |
| `ArmComparability.ValidateArms` | scripts/live_judge_score.py:279-440 | no error exactly for two arms over one experiment: the roles, one declared number of reps n, in each scenario, which stands there once, the reps 1 to n in one run each that has a response and at most one more run with the rep false, in both arms or in neither, the same scenarios, those of the corpus and, unless a subset is allowed, all of those |
| `ArmComparability.Pigeonhole` | scripts/live_judge_score.py:422-433 | n distinct integers between 1 and n are exactly 1 to n |
| `ArmComparability.CheckComplete` | scripts/live_judge_score.py:418-433 | counts, minimum and maximum decide completeness |
| `ArmComparability.RepsAreOneToN` | scripts/live_judge_score.py:374-433 | an accepted scenario's rep ids are a permutation of 1 to n exactly when none of them is the Boolean false |
| `ArmComparability.FalseRepIsAccepted` | scripts/live_judge_score.py:374-433 | two arms with an extra run whose rep id is false are accepted |
| `ArmComparability.EqualRunCounts` | scripts/live_judge_score.py:396-405 | an accepted scenario has equally many runs in both arms, false reps included |
| `ArmScores.ScoreArm` | scripts/live_judge_score.py:137-197 | every counter is the number of places in the runs of the arm, by class of the scenario and by outcome, that its name says |
| `ArmScores.EqualVulnerableRuns` | scripts/live_judge_score.py:137-176 | accepted arms have equally many vulnerable runs |
| `ArmScores.DispositionsSumToReps` | scripts/live_judge_score.py:137-176 | an arm's disposition counts sum to scenarios times reps exactly when no rep id is false |
| `PageWalk.GetPagesReport` | pr_reviewer/forge.py:350-421 | the walk returns the non-empty pages up to the first that ends it or the bound, and reports truncation exactly when it stopped at the bound |
| `PageWalk.SlicingEnds` | pr_reviewer/forge.py:403-421 | against a server that slices a list the unbounded walk ends |
| `PageWalk.ReadAll` | pr_reviewer/forge.py:350-421 | against such a server, by any page size, the unbounded walk returns the list and reports nothing missing |
| `PageWalk.UnboundedIsComplete` | pr_reviewer/forge.py:389-421 | any outcome of the unbounded walk of such a server is the list |
| `PageWalk.BoundedIsPrefix` | pr_reviewer/forge.py:357-372 | bounded by m pages it returns the first m times k items, is truncated exactly when page m is not empty, and complete otherwise |
| `PageWalk.ZeroBoundHidesEverything` | pr_reviewer/forge.py:403-404 | a bound of zero or less returns nothing and reports nothing missing, which is right only for an empty list |
| `PathMatch.FindingMatchesSegments` | scripts/eval_harness.py:439-476 | on any two paths the matcher is the documented relation between the segments of their normal forms, and false when nothing is left of one |
| `PathMatch.FileAnchorMatches` | scripts/eval_harness.py:476-476 | for a file anchor: one segment list is a suffix of the other |
| `PathMatch.FileAnchorsAreSymmetric` | scripts/eval_harness.py:476-476 | between file paths the matcher is symmetric |
| `PathMatch.DirectoryAnchorMatches` | scripts/eval_harness.py:466-475 | for a directory anchor: the directory, or its segments in a row with something after them, or a tail of them followed by something |
| `PathMatch.NormalizePath` | scripts/eval_harness.py:432-436 | the loop that drops leading ./ computes the normal form |
| `PathMatch.NormalizeIgnores` | scripts/eval_harness.py:432-436 | white space around a path, the direction of its slashes, its case, a leading ./ and a leading slash make no difference, and a path without any of these is its own normal form |
| `PathMatch.NormalizeTwice` | scripts/eval_harness.py:432-436 | normalizing twice is normalizing once exactly when what is left under the leading ./ and slashes starts with neither ./ nor white space |
| `PathMatch.NotIdempotent` | scripts/eval_harness.py:432-436 | it is not idempotent on .//./x |
| `Endpoint.SplitOfUrl` | pr_reviewer/http_safe.py:319-322 | splitting a joined URL gives back scheme, authority and path, or nothing when the authority is refused |
| `Endpoint.ResolvedAuthorityIsBare` | pr_reviewer/http_safe.py:349-357 | the authority of a resolved endpoint has no '@' |
| `Endpoint.ResolveWithUserinfo` | pr_reviewer/http_safe.py:349-357 | a userinfo is moved into the credential and the target is the URL without it, exactly when the authority is accepted |
| `Endpoint.ResolveBare` | pr_reviewer/http_safe.py:319-348 | a text without userinfo resolves to itself exactly for an http or https scheme in any case, an accepted authority and port, neither query nor fragment, and no at sign, literal or encoded, in host or path |
| `Endpoint.ResolveUserinfo` | pr_reviewer/http_safe.py:319-357 | with userinfo: to the URL without it and the decoded credential, exactly for such a scheme, authority and port, a host, and neither query nor fragment |
| `Endpoint.ResolveIgnoresSpace` | pr_reviewer/http_safe.py:319-320 | white space around the text makes no difference |
| `Endpoint.ResolveTwice` | pr_reviewer/http_safe.py:337-357 | resolving is idempotent exactly when host and path carry no '@', literal or encoded, the host is accepted on its own, and no white space ends the target |
| `Endpoint.ResolveTwiceFails` | pr_reviewer/http_safe.py:337-357 | an encoded '@' in the path is let through beside a literal userinfo and refused without it |
| `Endpoint.IdentityIgnoresUserinfo` | pr_reviewer/http_safe.py:174-191 | texts that differ only in the userinfo have one identity |
| `Endpoint.IdentitySeparates` | pr_reviewer/http_safe.py:159-191 | under an injective hash, identities of targets that do not end in white space are equal exactly for equal scheme, host with port, and path up to trailing slashes |
| `Endpoint.ToldApartIff` | pr_reviewer/http_safe.py:174-191 | no different target that does not end in white space compares equal to an endpoint, exactly when its own target does not end in white space, or is a bare host that nothing can name without it |
| `Endpoint.IdentitySeparatesIff` | pr_reviewer/http_safe.py:159-191 | identity and target agree in both directions between an endpoint and all of those exactly when its own target does not end in white space |
| `Endpoint.SpaceSharesIdentity` | pr_reviewer/http_safe.py:159-191 | a path with a space at its end and the path without it are two targets with one identity |
| `Endpoint.RedactionForgetsUserinfo` | pr_reviewer/http_safe.py:56-127 | two texts that differ in the userinfo only redact to the same text, unless one redacts to the marker |
| `Endpoint.RedactUserinfo` | pr_reviewer/http_safe.py:79-127 | a userinfo becomes three stars, the scheme goes to lower case and everything else stays, exactly where the text holds one :// and its authority is accepted; otherwise the whole text becomes three stars |
| `Endpoint.AtBehindAuthority` | pr_reviewer/http_safe.py:115-121 | an at sign behind an authority without one makes the whole text three stars |
| `Endpoint.AtWithoutAuthority` | pr_reviewer/http_safe.py:92-98 | so does one in a text with neither scheme nor authority |
| `Endpoint.SchemelessUserinfo` | pr_reviewer/http_safe.py:99-112 | in user:pass@host/path everything before the last at sign ahead of the first slash becomes three stars |
| `Endpoint.SchemelessAtDeeper` | pr_reviewer/http_safe.py:113-114 | an at sign only behind the first slash makes such a text three stars |
| `Endpoint.RedactedResolvesTheSame` | pr_reviewer/http_safe.py:56-127 | what a resolvable text with a userinfo redacts to, when not all marker, resolves to the same target exactly when the marked authority is accepted and no white space ends the target, or a query or fragment stands behind it |
| `Endpoint.SpaceRedactsElsewhere` | pr_reviewer/http_safe.py:123-127 | a target with a userinfo and a space at its end redacts to a text that resolves to the target without the space, or to nothing |
| `Endpoint.RedactedElsewhere` | pr_reviewer/http_safe.py:123-127 | so does http://u@h/a ? with its empty query |
| `Endpoint.WithoutAtUnchanged` | pr_reviewer/http_safe.py:73-122 | a text without '@' is echoed unchanged exactly when it holds at most one ://, splits, and no encoded '@' stands in its authority, beside an authority, or in a text with neither scheme nor authority, or when it is the marker; otherwise it becomes the marker |
| `Endpoint.EncodedAtIsRedacted` | pr_reviewer/http_safe.py:115-122 | a URL without '@' and with %40 in its path becomes the marker |
| `Endpoint.SecondUrlIsRedacted` | pr_reviewer/http_safe.py:79-82 | a URL with a second URL in its path becomes the marker |

## Left out

- Endpoint.Resolve: which authorities `urlsplit` refuses (brackets, IP literals, Unicode) and which ports are valid are parameters.
- Endpoint.Redact: `"@" in unquote(s)` is modelled as a literal at sign or `%40`; other text never decodes to one.
- SpendBudget.DeclaredBudget: newer Pythons raise on a declaration of more than 4300 digits; the model reads its value.
- PathMatch.NormalizePath: lower-cases character by character, so Python's rule for a final sigma is left out.
- EvalGate.Rate: rounds the exact quotient half to even, where the code rounds a binary floating-point quotient.
- Harvest.BuildEntries: the fields of an entry beside its id are one opaque body.
- ArmComparability.ValidateArms: whether there are errors, not their wording or number.
- RunKeys.Collect: reads reports that are already parsed; arm labels and paths come from the command line.
- Unblinding.Score: the totals of one arm; the rates are quotients of them, and the paired deltas with their bootstrap interval are not modelled.
- Canary.RunCanary: the plan validator and the credential checks before the sweep; a plan is taken as validated.
- Score.RunScore: the plan validator, the credential checks and the reading of canned mock answers; whether a mock row scores is up to the environment.
- PageWalk.GetPagesReport: the query parameters other than the page number, and the lazy generator form.
- Two invocations at the same time on one work directory: the ledger has no lock, and the model takes one invocation after the other.
- Edits by people that remove entries from the bot branch or from main.
- `evaluate_semantic_capability`: how signals become a run's verdict and disposition; the gate takes them as given.
- `classify_signal`, the phrase vocabularies and regular expressions.
- `cmd_review`, `cmd_report`, `cmd_plan`, and the per-condition timings and repeats in the results record.
- `extract_confidence_section`, `parse_concern` and `newest_published_body`: line-by-line parsing with many small branches.
- `score_vulnerable_run`, `_cross_role_lead_overlap`, `_live_duplicate_count` and `compute_precision_recall`: counts settled by reading one loop.
- `redact_echo_value`, `select_base_url`, `resolve_credential_channel` and the advisory path check: short conditions beside the resolver.
- Git and Node subprocesses, HTTP, temporary files, clocks and environment variables: outcomes of steps or parameters.
