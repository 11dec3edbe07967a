# Verified model of the evoagent governance and evidence pipeline

This project models the parts of evoagent that decide whether a self-evolved agent may be promoted, and
proves what those parts keep over every run and every accepted input. It has four cores.

- **The governed Campaign store** (`AuditChain`, `CampaignStore`, `CampaignRepository`, and the
  `Campaign*` modules). Campaigns move through nine states under optimistic revisions, one open campaign per
  target, cooldowns, approvals by several actors and a hash-chained audit log. `CampaignStore` gives each
  public write as one atomic step on values. `CampaignRepository` is the object that updates its tables in
  place and rolls back; every method is proved equal to the step. The other modules prove theorems about all
  sequences of steps.
- **The benchmark evidence pipeline** (`Benchmark*`, `Comparison*`, `RankingTheorems`, `EvidenceRegistry`,
  `Package*`, with sorting in `Ordering`). Imported trials are aggregated per task, validated by an
  independent recomputation, compared along evolution rounds and across agents, registered under a chained
  log, and packaged so that every claim can be recomputed. `RoundAssessment` and `AssessmentTheorems` follow
  the figures into the promotion gate's assessment of each evolved round.
- **The pilot verifier loops** (`CheckpointLineage`, `AtifLedger`, with their ranges in `PilotBounds`) and **the importer's shape guard**
  (`ShapeGuard`). Each checker is proved equivalent to a global structural statement.
- **The source rewriter** (`TextOccurrences`, `SourceRewriter`, `AdapterPatterns`). The loop over pattern
  pairs is proved idempotent, in general and for the three concrete pairs of the Claude Code adapter.

The modules named `…Outcomes` pin each operation from outside: every answer and the whole effect of a commit, or the
exact condition for acceptance, stated over rows, index sets and sums instead of the functions that compute them.

Conventions. Floating-point figures are reals and keep the code's tolerances. Times are integers on one
clock. Fresh identifiers, clock readings and digests are parameters. A digest is an arbitrary function;
`Injective` is an explicit hypothesis of the lemmas on tampering and of nothing else. Python exceptions are
`Result` or `Option` values. Which exception a method raises is stated where a caller can act on it; for the
long validators the contract states acceptance exactly.

Six results say that the code promises less than its surroundings suggest. Each has an exact condition and a
concrete witness or a construction from any accepted input.

- The transition table lets a caller move a campaign from APPROVAL_PENDING straight to AUTHORIZED. A write
  keeps "authorized means fully approved" if and only if it is not that transition
  (`RatifiedExactlyWhenGoverned`, `DirectTransitionBypassesApproval`).
- `docs/09-campaign-governance.md:58` promises that a new campaign is blocked until the deadline. The store
  looks at one row, the most recently updated one. The promise holds on a clock that never steps back and
  can fail otherwise: the target is reserved again while a deadline is still ahead
  (`ReservationHonoursEveryCooldown`, `BackwardClockHidesCooldown`).
- The event of a rejecting vote does not carry the cooldown it set, so the log rebuilds everything but that
  deadline (`VotedCooldownLeavesNoTrace`, `SameLogDifferentCooldown`).
- The messages of the package check speak of "exactly one import per run", "the exact comparison records" and
  "one eligibility assessment per run", but it compares sets of identifiers and reads the last record of each.
  The counts decide when the messages are literally true (`ExactlyOneImportIffCounted`,
  `ExactReportRecordsIffCounted`, `OneAssessmentIffCounted`); an earlier import with contradicting facts and
  an earlier forged assessment are accepted (`ContradictedImportIsAccepted`, `ForgedAssessmentIsAccepted`).
- `store_comparison` accepts a report whose runs were never imported; `verify_state` fails afterwards
  (`StateHoldsExactlyWhenResolved`, `DanglingReportFailsStateCheck`).
- The gain of a longitudinal report is a difference of stored scores; the gain of the assessment is a mean of
  task deltas. A stored score may be within 1e-12 of its mean, so the two gains can differ by up to 2e-12, and
  agree within 1e-12 exactly when the drifts of the two scores do (`FinalAssessmentAgreesWithReport`,
  `ReportGainCanDifferFromAssessmentGain`). The assessment's own check on its gain never fails
  (`AssessmentPassesValidation`). Runs built by the importer carry exact means (`ImportedScoreIsTaskMean`).

## Model

| member | source | states |
|---|---|---|
| AuditChain.VerifyAudit | src/evoagent/campaigns/repository.py:598-626 | the one-pass check accepts exactly the logs that are numbered from 1, chained and self-digested throughout and match the checkpoint; a broken chain or altered content is reported only after an intact prefix with that very fault behind it |
| AuditChain.AppendKeepsIntact | src/evoagent/campaigns/repository.py:685-754 | recording an event keeps the chain whole and leaves the earlier history as a prefix |
| AuditChain.RetainedHistoryIsPrefix | src/evoagent/campaigns/repository.py:598-626 | under an injective digest, an intact log ending in some event of another intact log is a prefix of it, so no edit, insertion, reorder or removal before a retained event passes |
| AuditChain.CheckpointPinsLog | src/evoagent/campaigns/repository.py:591-626 | under an injective digest, a log is accepted against a checkpoint if and only if it is the log the checkpoint was taken from |
| AuditChain.ChainAloneAcceptsPrefixes | src/evoagent/campaigns/repository.py:598-626 | without a checkpoint, among logs that end in an event of the original, exactly the prefixes pass: only truncation is invisible |
| CampaignStore.LatestCooldown | src/evoagent/campaigns/repository.py:233-237 | finds a most recently updated row of the target that carries a deadline, or there is none |
| CampaignRepositoryModel.CampaignRepository.ReserveCampaign | src/evoagent/campaigns/repository.py:182-284 | after the in-place reservation the tables and the answer are those of the atomic step; every failing path leaves all three tables as they were |
| CampaignRepositoryModel.CampaignRepository.AttachCandidate | src/evoagent/campaigns/repository.py:286-333 | the same refinement for attaching a candidate |
| CampaignRepositoryModel.CampaignRepository.TransitionTo | src/evoagent/campaigns/repository.py:335-390 | the same refinement for a state transition and its cooldown |
| CampaignRepositoryModel.CampaignRepository.RecordDecision | src/evoagent/campaigns/repository.py:392-474 | the same refinement for a vote, counted over the table that already holds it |
| CampaignRepositoryModel.CampaignRepository.UpdateRow | src/evoagent/campaigns/repository.py:363-390 | the shared tail of the three updates: commit row and event together, or restore the snapshot on a constraint violation |
| CampaignRepositoryModel.CampaignRepository.VerifyLog | src/evoagent/campaigns/repository.py:598-626 | verification of the stored log accepts exactly the intact logs that match the checkpoint |
| CampaignInvariants.EffectOf | src/evoagent/campaigns/repository.py:182-474 | every committed call reuses, inserts one row, or rewrites one open row, and logs exactly one new event |
| CampaignInvariants.StepKeepsSound | src/evoagent/campaigns/repository.py:35-67 | every call, legal or not, keeps keys and open targets unique, one vote per actor and campaign, no self-vote, vote counts that fit each state, bounded revisions and an intact log |
| CampaignInvariants.ReachableIsSound | src/evoagent/campaigns/repository.py:182-474 | that invariant holds after every sequence of calls, in any interleaving |
| CampaignOutcomes.TableCountsStages | src/evoagent/campaigns/repository.py:35-67 | counting stages, the table allows exactly: one stage up, evidence skipped at the start, completion at the top, rejection between candidate and authorization, cancellation of any open campaign |
| CampaignOutcomes.TransitionOutcome | src/evoagent/campaigns/repository.py:335-390 | in a sound store a transition is refused for an old revision, a move the stages do not admit or a used event identifier, in that order and without effect; otherwise it commits, moves exactly this row, sets its deadline and logs this one event |
| CampaignOutcomes.AttachOutcome | src/evoagent/campaigns/repository.py:286-333 | the same for attaching, which only a campaign that is open or accumulating evidence accepts |
| CampaignOutcomes.DecisionOutcome | src/evoagent/campaigns/repository.py:392-474 | a vote is refused for revision, state, own campaign, second vote or used identifier; otherwise recorded, and leads to rejection, to authorization when enough distinct people approved, or nowhere |
| CampaignOutcomes.UnknownOutcome | src/evoagent/campaigns/repository.py:655-661 | without a row under the key every write fails as unknown and changes nothing |
| CampaignOutcomes.RefusedArguments | src/evoagent/campaigns/repository.py:197-200 | a reservation with no required approval or a later initial state is refused and changes nothing |
| CampaignOutcomes.OwnedTargetOutcome | src/evoagent/campaigns/repository.py:206-231 | reserving a target that an open campaign owns: another fingerprint is a conflict naming the owner, without effect; the same one is answered with the owner and logged as one reuse by this actor at this time |
| CampaignOutcomes.FreeTargetOutcome | src/evoagent/campaigns/repository.py:233-284 | reserving a target nobody owns: with no deadline ahead and unused identifiers the row is inserted exactly as asked and logged once; a refusal names a deadline that is ahead |
| CampaignStages.NoApprovalWithoutEvaluation | src/evoagent/campaigns/repository.py:45-59 | in every reachable store a campaign that awaits approval, is authorized or completed has on record a move from CANDIDATE_READY to EVALUATION_PENDING and later one from there to APPROVAL_PENDING |
| CampaignStages.WritesClimbOneStage | src/evoagent/campaigns/repository.py:35-67 | any committed write climbs one stage, jumps only from OPEN to CANDIDATE_READY, waits only for approvals, completes only from AUTHORIZED and rejects only with a candidate and before authorization |
| CampaignLifetime.RevisionCountsWrites | src/evoagent/campaigns/repository.py:286-474 | in every reachable store a campaign's revision is the number of writes committed to it |
| CampaignLifetime.RevisionAfter | src/evoagent/campaigns/repository.py:286-474 | a committed write raises one campaign's revision by exactly one and no other |
| CampaignLifetime.RevisionConsumedOnce | src/evoagent/campaigns/repository.py:286-474 | no lost update: two committed writes never consume the same campaign and revision |
| CampaignLifetime.LifetimeIsBounded | src/evoagent/campaigns/repository.py:35-67 | no run commits more than required_approvals + 5 writes to a campaign |
| CampaignLifetime.OpenTargetIndexNeverFires | src/evoagent/campaigns/repository.py:142-145 | the unique index over open targets never rejects a write in any reachable store |
| CampaignLifetime.ClosedRowsStay | src/evoagent/campaigns/repository.py:64-66 | a rejected, cancelled or completed row is never changed again |
| CampaignApprovals.CountIsHeadcount | src/evoagent/campaigns/repository.py:438-445 | counting approval rows counts distinct approvers |
| CampaignApprovals.RatifiedExactlyWhenGoverned | src/evoagent/campaigns/repository.py:55-59 | a committed call keeps "authorized means fully approved" if and only if it is not the direct transition to AUTHORIZED |
| CampaignApprovals.AuthorizationMeansApproval | src/evoagent/campaigns/repository.py:392-474 | in governed runs AUTHORIZED and COMPLETED mean exactly required_approvals distinct approvers, none the generator, and no rejection; APPROVAL_PENDING means fewer and no rejection |
| CampaignApprovals.PolicyIsKept | src/evoagent/campaigns/policy.py:9-14 | campaigns reserved under the policy require two approvals for HIGH risk and one otherwise, for ever |
| CampaignApprovals.GateCountsDecisions | src/evoagent/champion/lifecycle.py:337-363 | the lifecycle's filtered lists have the lengths and actors that the store's counts describe |
| CampaignApprovals.GateAgreesWithStore | src/evoagent/champion/lifecycle.py:337-388 | for an authorized campaign of a governed, policy-following run whose generator is the decision actor, the activation gate passes exactly for HIGH risk |
| CampaignCooldown.LookupExactExactlyWhen | src/evoagent/campaigns/repository.py:233-243 | on any table, looking at the latest row decides like looking at all rows at every instant if and only if the latest row holds the longest deadline |
| CampaignCooldown.AnyTieBreakAgrees | src/evoagent/campaigns/repository.py:233-237 | in a chronicle it does not matter which of several equally recent rows the database returns |
| CampaignCooldown.StepKeepsChronicle | src/evoagent/campaigns/repository.py:204-243 | a call on a clock that does not step back keeps campaigns of one target following each other in time, cooldown included |
| CampaignCooldown.ReservationHonoursEveryCooldown | src/evoagent/campaigns/repository.py:233-243 | over every orderly run, a reservation is refused for cooling down exactly when some past campaign of the target has a deadline ahead |
| CampaignWitnesses.DirectTransitionBypassesApproval | src/evoagent/campaigns/repository.py:55-59 | a concrete run that reaches AUTHORIZED with one approval required and none on record |
| CampaignWitnesses.BackwardClockHidesCooldown | src/evoagent/campaigns/repository.py:233-243 | a concrete run with a backward clock after which a new reservation commits although a deadline of the target is ahead |
| CampaignWitnesses.SameLogDifferentCooldown | src/evoagent/campaigns/repository.py:432-470 | two concrete runs that end in a rejecting vote, with and without a cooldown: equal logs, different deadlines |
| CampaignReplay.LogRebuildsTables | src/evoagent/campaigns/repository.py:182-474 | in every reachable store, folding the events rebuilds each campaign's identity, state, revision, candidate and times, every vote, and every deadline not set by a rejecting vote |
| CampaignReplay.VotedCooldownLeavesNoTrace | src/evoagent/campaigns/repository.py:432-470 | two rejecting votes that differ only in the cooldown they set, or in whether they set one, write the same log and different tables |
| CampaignGovernance.CampaignGovernanceService.Reserve | src/evoagent/campaigns/governance.py:27-49 | the service's reservation is a governed, policy-following step of the store |
| CampaignGovernance.CampaignGovernanceService.SubmitEvaluation | src/evoagent/campaigns/governance.py:69-101 | the two-transaction method leaves the tables and answer of its specification on values, including a half-done evaluation when the second transaction fails |
| EvaluationOutcomes.EvaluationOutcome | src/evoagent/campaigns/governance.py:69-101 | every case of submitting a result: wrong state, old revision, used identifiers, a started evaluation left behind when the second step fails, and the exact rows, deadline and events of success |
| CampaignGovernance.TransitionCommits | src/evoagent/campaigns/repository.py:335-390 | in a sound store a transition commits exactly when the row exists at that revision, the move is legal and the event identifier is new |
| CampaignGovernance.InterruptedEvaluationResumes | src/evoagent/campaigns/governance.py:81-101 | an evaluation interrupted between its transactions and retried at the current revision reaches the same state, revision and sequence of transitions as an uninterrupted one |
| CampaignGovernance.ResultLandsOnStartedRow | src/evoagent/campaigns/governance.py:82-101 | whatever runs in between, the result is recorded only on the very row the evaluation started |
| CampaignGovernance.EvaluationIsGovernedRun | src/evoagent/campaigns/governance.py:69-101 | what the service does to the store is a governed run of at most two calls, so every theorem on governed runs covers it |
| TextOccurrences.CountOne | scripts/prepare_harbor_openrouter.py:66-67 | for a pattern that cannot overlap itself, the left-to-right count is one exactly when one position matches |
| RewriterOutcomes.CountIsOccurrences | scripts/prepare_harbor_openrouter.py:66-67 | for a pattern that cannot overlap itself the count is the number of positions at which it occurs |
| TextOccurrences.ReplaceSplices | scripts/prepare_harbor_openrouter.py:69 | replacing the only occurrence splices the new text in and leaves the rest |
| TextOccurrences.ReplacementKeepsOthers | scripts/prepare_harbor_openrouter.py:65-69 | a replacement neither creates nor destroys an occurrence of a pattern apart from both its sides |
| SourceRewriter.PrepareSource | scripts/prepare_harbor_openrouter.py:64-81 | the loop yields the left-to-right composition of the pair steps, or stops with the counts of the first pair that does not fit |
| SourceRewriter.PendingBecomesDone | scripts/prepare_harbor_openrouter.py:68-71 | applying a pending pair makes it applied, also when the new text contains the old one |
| RewriterOutcomes.StepOutcome | scripts/prepare_harbor_openrouter.py:66-80 | one step exchanges the only old block and keeps all other text, changes nothing on an applied pair, or fails with both numbers of occurrences |
| RewriterOutcomes.FailureNamesFirstMisfit | scripts/prepare_harbor_openrouter.py:65-80 | a failing run stopped at the first pair that did not fit the text so far and reports that pair's counts |
| SourceRewriter.StepKeepsStatus | scripts/prepare_harbor_openrouter.py:65-74 | a step on one pair leaves every unrelated pair pending or applied as it was |
| SourceRewriter.PrepareCharacterised | scripts/prepare_harbor_openrouter.py:56-81 | for compatible pairs the loop succeeds if and only if each pair is pending or applied in the original text, and then all are applied |
| SourceRewriter.PrepareIsIdempotent | scripts/prepare_harbor_openrouter.py:56-57 | for compatible pairs, running the loop on its own result returns it unchanged |
| AdapterPatterns.AdapterPairsAreCompatible | scripts/prepare_harbor_openrouter.py:22-49 | the three concrete blocks do not overlap themselves or each other in any text |
| AdapterPatterns.AdapterRewriteIsIdempotent | scripts/prepare_harbor_openrouter.py:56-81 | for every source text the adapter rewrite succeeds exactly when each block is original or already replaced, and preparing a prepared text changes nothing |
| AdapterPatterns.PrepareClaudeCodeSource | scripts/prepare_harbor_openrouter.py:56-81 | the method computes that rewrite and its successful results are fixed points |
| Ordering.SortIsCanonical | src/evoagent/benchmark_evidence/comparison.py:228-238 | a stable sort by an order without ties gives the same result for every permutation of its input |
| Ordering.StringLeqByFirstDifference | src/evoagent/benchmark_evidence/comparison.py:228-238 | the string order used for sorting is decided by the first differing character, prefixes first |
| BenchmarkModels.GroupTrials | src/evoagent/benchmark_evidence/models.py:430-455 | one pass succeeds exactly when every trial fits the contract, and then yields each frozen task's trials in order |
| BenchmarkModels.ValidateRun | src/evoagent/benchmark_evidence/models.py:421-519 | accepts exactly the runs that cover the frozen tasks and whose every derived figure and own hash recompute |
| RunOutcomes.CoversExactlyWhen | src/evoagent/benchmark_evidence/models.py:421-464 | the coverage checks hold exactly when distinct tasks were each tried the agreed number of times by the agreed agent and model, with distinct trials in range and truly counted errors and cancellations |
| RunOutcomes.ValidRunTells | src/evoagent/benchmark_evidence/models.py:479-514 | a validated run covers its contract, and its usage totals exist exactly when every trial reports them and are then the sums |
| RunOutcomes.ValidScoresTell | src/evoagent/benchmark_evidence/models.py:465-472 | its score is the mean reward and its error rate the share of errored trials, within 1e-12 |
| RunOutcomes.ValidAggregatesTell | src/evoagent/benchmark_evidence/models.py:473-478 | its aggregates are the frozen tasks, each once and in name order, with the trials, mean reward and errors of that task |
| RunOutcomes.SumsOfAppend | src/evoagent/benchmark_evidence/models.py:465-511 | each sum grows by what an appended trial contributes, a missing figure contributing nothing |
| RunOutcomes.CancellationsAreCounted | src/evoagent/benchmark_evidence/models.py:461-464 | the cancelled count is the number of trials whose error is a cancellation |
| BenchmarkImporter.BuildTaskAggregates | src/evoagent/benchmark_evidence/importer.py:466-499 | succeeds exactly when every frozen task has a trial, with one aggregate per task in name order, and otherwise names a task without trials |
| BenchmarkImporter.ParseJob | src/evoagent/benchmark_evidence/importer.py:168-298 | from the parsed trials on, the import succeeds exactly under the count, coverage and declared-total conditions, and what it returns passes the validator |
| RunOutcomes.ImportCarriesJob | src/evoagent/benchmark_evidence/importer.py:225-298 | an imported run carries the job's identity, times and counts, and its score and error rate are exact |
| RunOutcomes.DeclaredTotalsDisagree | src/evoagent/benchmark_evidence/importer.py:430-463 | declared totals are rejected exactly when the trials are complete and a declared count differs, or a declared cost differs by more than 1e-9 |
| BenchmarkImporter.ImportedFiguresPassValidation | src/evoagent/benchmark_evidence/models.py:465-514 | an imported record is valid if and only if its trials cover the contract: no check on a derived figure can fail |
| BenchmarkConservation.GroupsPartitionReward | src/evoagent/benchmark_evidence/models.py:433-455 | grouping trials by task loses no reward and counts none twice |
| BenchmarkConservation.TaskMeanIsTrialMean | src/evoagent/benchmark_evidence/models.py:465-478 | for every validated run the mean of the per-task scores equals the mean over all trials exactly |
| BenchmarkConservation.ScoreIsTaskMean | src/evoagent/benchmark_evidence/models.py:465-470 | a validated run's score is the mean of its task scores within the tolerance |
| BenchmarkConservation.ImportedScoreIsTaskMean | src/evoagent/benchmark_evidence/importer.py:225-258 | an imported run's score is exactly the mean of its task scores |
| BenchmarkComparison.SameModelCrossAgent | src/evoagent/benchmark_evidence/comparison.py:179-309 | the checking and appending loops compute the specified report or the error of the first run that fails |
| ComparisonOutcomes.SameModelAcceptsExactlyWhen | src/evoagent/benchmark_evidence/comparison.py:187-227 | there is a same-model report exactly when there are two runs, distinct ids, distinct agents, and an anchor whose model, suite and frozen terms all runs share |
| ComparisonOutcomes.SameModelErrorExplains | src/evoagent/benchmark_evidence/comparison.py:187-227 | the error names what is wrong: the failing check, and a run that deviates in just that respect |
| ComparisonOutcomes.PairwiseOutcome | src/evoagent/benchmark_evidence/comparison.py:254-293 | for validated runs each row's wins, losses and ties are the numbers of tasks on which the anchor beats, is beaten by and levels with that run, and every delta is anchor less other, missing exactly when a side is |
| ComparisonOutcomes.CrossReportHeader | src/evoagent/benchmark_evidence/comparison.py:294-309 | the report carries the anchor's model, suite and frozen terms and all run ids in order |
| ComparisonOutcomes.FrozenIsSameTerms | src/evoagent/benchmark_evidence/builders.py:145-170 | two contracts freeze the same terms exactly when eleven fields agree |
| ComparisonTheorems.LongitudinalIsCanonical | src/evoagent/benchmark_evidence/comparison.py:29-176 | the longitudinal outcome, report or error, is the same for every permutation of the runs |
| ComparisonTheorems.SameModelIsCanonical | src/evoagent/benchmark_evidence/comparison.py:179-309 | every permutation of the runs yields the same report, or every permutation fails |
| ComparisonTheorems.CompareIsAntisymmetric | src/evoagent/benchmark_evidence/comparison.py:254-293 | swapping anchor and comparator swaps wins and losses, keeps ties and negates the deltas; wins, losses and ties add up to the task count |
| ComparisonTheorems.MonotonicCurveIsBounded | src/evoagent/benchmark_evidence/comparison.py:132-135 | a curve without a downward round loses at most 1e-12 per evolved round from baseline to final score |
| CurveOutcomes.BestRoundOutcome | src/evoagent/benchmark_evidence/comparison.py:136-150 | the best round an accepted report names is the round of a run that no run outscores and every earlier run scores below |
| CurveOutcomes.LongitudinalAcceptsExactlyWhen | src/evoagent/benchmark_evidence/comparison.py:35-92 | runs in any order get a report exactly when they violate none of the nine conditions, and an error names a condition they violate |
| CurveOutcomes.CurveOutcome | src/evoagent/benchmark_evidence/comparison.py:94-176 | every accepted report tells each run's figures by round, counts exactly the drops beyond 1e-12, is monotonic exactly without one, and compares the last run with the first |
| CurveOutcomes.CurveTasksOutcome | src/evoagent/benchmark_evidence/comparison.py:108-131 | for validated runs each evolved round lists every task once with its change, and the improved and regressed tasks are those on which the final run beats or is beaten by the baseline |
| ComparisonTheorems.RoundDeltas | src/evoagent/benchmark_evidence/comparison.py:111-128 | the deltas a report lists for an evolved round, the final one included, are exactly those of that round's run |
| ComparisonTheorems.GainAgainstMean | src/evoagent/benchmark_evidence/comparison.py:110-150 | for validated runs of one suite the difference of scores exceeds the mean task delta by exactly the drift of the two stored scores, at most 2e-12 |
| RoundAssessment.AggregatesAreSorted | src/evoagent/benchmark_evidence/models.py:473-478 | the aggregates of a validated run already stand in name order |
| RoundAssessment.DeltasMatchReport | src/evoagent/champion/policy.py:156-172 | for runs that list the same tasks in name order, the gate's deltas are task by task those of the longitudinal report |
| RoundAssessment.AssessmentPassesValidation | src/evoagent/champion/models.py:278-308 | for all validated runs of one suite and any outcome of the gates, assessing an evolved round succeeds and no range or derived-value check of the record can fail: outcome counts, fraction, gain, bootstrap mean, reasons against status |
| AssessmentTheorems.FinalAssessmentAgreesWithReport | src/evoagent/champion/policy.py:154-181 | for every curve of validated runs the final assessment has the report's deltas, counts and error change; the two gains differ by exactly the drift difference, never by more than 2e-12, and agree within 1e-12 if and only if the drifts do |
| AssessmentTheorems.AssessmentOutcome | src/evoagent/champion/policy.py:156-288 | for validated runs an assessment counts the tasks on which the candidate beats and is beaten by the baseline, gains the score difference up to drift, and its status and reasons are those of the gates |
| AssessmentTheorems.ReportOrderIsRoundOrder | src/evoagent/champion/policy.py:44-51 | runs looked up by the ids of an accepted report already stand in round order, so the first is the baseline and the last the final round |
| AssessmentTheorems.PackagedRoundsAreAssessed | src/evoagent/champion/policy.py:42-69 | on every accepted package of validated runs each evolved round gets a valid assessment that counts exactly the deltas the packaged report lists for that round |
| ComparisonTheorems.CurveReportPassesValidation | src/evoagent/benchmark_evidence/models.py:626-643 | a longitudinal report the comparator builds always passes the report model's validator |
| RankingTheorems.RankingOrdersAllRuns | src/evoagent/benchmark_evidence/comparison.py:228-253 | the ranking lists every run once with contiguous ranks, ordered by score, then errors, then agent name, then id |
| RankingTheorems.PairwiseCoversOthers | src/evoagent/benchmark_evidence/comparison.py:257-293 | every run but the anchor is compared with the anchor exactly once |
| RankingTheorems.CrossReportPassesValidation | src/evoagent/benchmark_evidence/models.py:693-708 | a same-model report the comparator returns always passes the report model's validator |
| ComparisonWitnesses.ReportGainCanDifferFromAssessmentGain | src/evoagent/champion/policy.py:172-173 | two concrete validated runs, accepted by the comparator, whose report gain and valid assessment's gain differ by more than 1e-12 |
| EvidenceRegistry.BenchmarkEvidenceRepository.ImportEvidence | src/evoagent/benchmark_evidence/repository.py:88-140 | the in-place import leaves the tables of the atomic step and tells a new run from a reused one; a conflict changes nothing |
| EvidenceRegistry.BenchmarkEvidenceRepository.StoreComparison | src/evoagent/benchmark_evidence/repository.py:142-200 | the same refinement for storing a report |
| EvidenceRegistry.BenchmarkEvidenceRepository.VerifyLog | src/evoagent/benchmark_evidence/repository.py:262-296 | accepts exactly the intact logs that match the checkpoint |
| EvidenceRegistry.BenchmarkEvidenceRepository.VerifyState | src/evoagent/benchmark_evidence/repository.py:298-317 | passes exactly when every stored report's runs and anchor are registered and the log is intact |
| RegistryOutcomes.ImportOutcome | src/evoagent/benchmark_evidence/repository.py:88-140 | every case of an import: another record under the id is a conflict, the same one a reuse, a used event identifier a failure, all without effect; else the record is stored with one event carrying its hashes |
| RegistryOutcomes.StoreOutcome | src/evoagent/benchmark_evidence/repository.py:142-200 | the same for a report of either kind |
| RegistryOutcomes.ImportFailsExactlyWhen | src/evoagent/benchmark_evidence/repository.py:99-140 | an import fails exactly on another record under its id, or on a new id with a used event identifier |
| RegistryOutcomes.CommittedImportIsHeld | src/evoagent/benchmark_evidence/repository.py:103-112 | after a committed import the registry holds exactly that record |
| RegistryOutcomes.CommittedReportIsHeld | src/evoagent/benchmark_evidence/repository.py:142-200 | after a committed store the registry holds exactly that report |
| RegistryOutcomes.AcceptedRunsAreHeld | src/evoagent/benchmark_evidence/repository.py:88-140 | after any history every run the registry ever accepted is still held unchanged |
| RegistryOutcomes.OneRecordPerId | src/evoagent/benchmark_evidence/repository.py:103-110 | two runs accepted under one id are the same record |
| EvidenceRegistry.HistoryIsConsistent | src/evoagent/benchmark_evidence/repository.py:88-200 | after any history of calls, retried and conflicting ones included, the log is intact and a one-to-one record of the stored runs and reports |
| EvidenceRegistry.EvidenceIsImmutable | src/evoagent/benchmark_evidence/repository.py:88-200 | nothing stored is ever changed or removed, and the log only grows |
| EvidenceRegistry.RetryIsHarmless | src/evoagent/benchmark_evidence/repository.py:101-112 | repeating a call that succeeded succeeds again as a reuse and changes nothing |
| EvidenceRegistry.StateHoldsExactlyWhenResolved | src/evoagent/benchmark_evidence/repository.py:298-317 | a committed call keeps the state check passing if and only if it does not store a report that names a missing run |
| EvidenceRegistry.OrderedHistoryPassesStateCheck | src/evoagent/benchmark_evidence/repository.py:298-317 | if every report is stored after its runs, the state check passes after the whole history |
| PackageWitnesses.DanglingReportFailsStateCheck | src/evoagent/benchmark_evidence/repository.py:298-317 | storing one real report in an empty registry commits, and the state check fails afterwards |
| ComparisonPackage.BenchmarkComparisonPackageManager.Verify | src/evoagent/benchmark_evidence/package.py:123-204 | accepts exactly the packages whose hash and reports recompute, whose chained log matches the checkpoint, and in which the last assessment and the last event of each run and report are the right ones |
| PackageOutcomes.AcceptedExactlyWhen | src/evoagent/benchmark_evidence/package.py:123-288 | a package is accepted exactly when its hash is its own, its runs are distinct and of its suite, its reports are computed from the runs they name, the log is intact up to the checkpoint, and the last assessment and event of each subject tell the truth |
| PackageOutcomes.AssessmentExactlyWhen | src/evoagent/benchmark_evidence/comparison.py:312-376 | the assessment of a run is the one record that tells which prerequisites it meets, is met exactly when all are, and gives one reason for each that is missing |
| ComparisonPackage.BenchmarkComparisonPackageManager.CheckEvents | src/evoagent/benchmark_evidence/package.py:241-288 | passes exactly when import and report events name packaged records and the last event of each carries its facts |
| ComparisonPackage.BenchmarkComparisonPackageManager.CheckReports | src/evoagent/benchmark_evidence/package.py:152-181 | passes exactly when both reports recompute from the packaged runs |
| ComparisonPackage.BenchmarkComparisonPackageManager.Build | src/evoagent/benchmark_evidence/package.py:78-121 | returns the assembled package if and only if it is acceptable |
| PackageOutcomes.AssembledCarriesParts | src/evoagent/benchmark_evidence/package.py:78-121 | the assembled package carries its parts unchanged and derives its flag and hash |
| PackageTheorems.ReportsRecomputeFromAnyOrder | src/evoagent/benchmark_evidence/package.py:152-181 | reports computed from runs in any order recompute from the packaged runs |
| PackageTheorems.BuiltFromRegistryVerifies | src/evoagent/benchmark_evidence/package.py:78-288 | for any registry history that leaves exactly these runs and two reports, computed from runs in any order, the built package is accepted and its log has one event per record |
| PackageWitnesses.PackagesExist | src/evoagent/benchmark_evidence/package.py:78-204 | whatever the digests are, two valid runs, their two reports and a history of four writes lead to a package that verifies, so the hypotheses of the build theorem can be met |
| PackageTheorems.ExactlyOneImportIffCounted | src/evoagent/benchmark_evidence/package.py:241-259 | an accepted package logs every run at least once, and exactly once if and only if it has as many import events as runs |
| PackageTheorems.ExactReportRecordsIffCounted | src/evoagent/benchmark_evidence/package.py:260-288 | an accepted package logs each of its reports at least once, and exactly once if and only if it has as many report events as report ids |
| PackageTheorems.OneAssessmentIffCounted | src/evoagent/benchmark_evidence/package.py:183-199 | an accepted package assesses each run at least once, and exactly once if and only if it has as many assessments as runs |
| PackageTheorems.ContradictedImportIsAccepted | src/evoagent/benchmark_evidence/package.py:241-259 | adding to any accepted log an import of a packaged run with arbitrary facts and then one with its true facts, and recomputing checkpoint and hash, gives an accepted package |
| PackageTheorems.ForgedAssessmentIsAccepted | src/evoagent/benchmark_evidence/package.py:183-199 | an assessment of a packaged run with any content may stand before the true ones of an accepted package |
| CheckpointLineage.WalkToRoot | scripts/verify_seagym_terminalbench_pilot.py:1922-1930 | the parent walk stops, and succeeds exactly when some number of parent steps leads to A0 |
| CheckpointLineage.CheckParents | scripts/verify_seagym_terminalbench_pilot.py:1915-1930 | passes exactly when every snapshot but A0 has a registered parent one generation below and a path to A0 |
| CheckpointLineage.FollowAttempts | scripts/verify_seagym_terminalbench_pilot.py:1956-1985 | succeeds exactly when each attempt is valid, starts at the current candidate and moves it only to a child; returns the last candidate and all accepted ones |
| CheckpointLineage.VerifyLineage | scripts/verify_seagym_terminalbench_pilot.py:1911-1998 | the checks on snapshots and attempts accept exactly when the attempt chain from A0 is continuous, ends in the candidate and explains every snapshot |
| LineageOutcomes.AttemptExactlyWhen | scripts/verify_seagym_terminalbench_pilot.py:1582-1708 | an attempt is valid exactly when it is in its place and range and either got an answer from the pinned model and provider with positive tokens or was skipped for its named reason without call, tokens or cost |
| LineageOutcomes.AcceptedExactlyWhen | scripts/verify_seagym_terminalbench_pilot.py:1911-1998 | a lineage is accepted exactly when some chain from A0 to the candidate holds all snapshots, and each attempt starts where the accepted ones before it ended and adds the next link with its own evidence or stays |
| CheckpointLineage.ChainRootsEverySnapshot | scripts/verify_seagym_terminalbench_pilot.py:1915-1930 | a chain that explains every snapshot already implies everything the walk over parents checks |
| CheckpointLineage.AcceptedLineageIsOneChain | scripts/verify_seagym_terminalbench_pilot.py:1956-1998 | acceptance means one acyclic chain from A0 to the candidate: distinct snapshots, generation k for the k-th accepted attempt, one snapshot more than accepted attempts |
| AtifLedger.FoldSteps | scripts/verify_seagym_terminalbench_pilot.py:2412-2511 | the loop succeeds exactly when every step is numbered, within range, metered or answered as required; its aggregate holds the sums over the metered steps |
| AtifLedger.ValidateLedger | scripts/verify_seagym_terminalbench_pilot.py:2412-2557 | accepts exactly the ledgers whose final and attested figures match the step sums; the call count is the number of metered steps and positive |
| LedgerOutcomes.AcceptedExactlyWhen | scripts/verify_seagym_terminalbench_pilot.py:2412-2557 | a ledger is accepted exactly when every step is a metered call or an answered tool call, some step is metered, and final and attested figures are the totals |
| LedgerOutcomes.TotalsOfAppend | scripts/verify_seagym_terminalbench_pilot.py:2458-2473 | every total grows by what an appended step reports |
| LedgerOutcomes.CloseExactlyWhen | scripts/verify_seagym_terminalbench_pilot.py:2527-2529 | costs agree exactly when they are within 1e-12 or within a billionth of either |
| AtifLedger.AcceptedLedgerReconciles | scripts/verify_seagym_terminalbench_pilot.py:2512-2557 | acceptance makes final and attested token totals equal, both costs close to the summed cost, and cached tokens at most prompt tokens |
| ShapeGuard.Guard.Visit | src/evoagent/benchmark_evidence/importer.py:140-165 | one visit succeeds exactly when the remaining node budget covers the whole value and all bounds hold inside it, and never counts past the limit by more than one |
| ShapeGuard.Guard.ValidateShape | src/evoagent/benchmark_evidence/importer.py:137-166 | the traversal accepts exactly the values within the node count, depth, key, array and string bounds, after at most max_nodes + 1 visits |
| ShapeOutcomes.AdmittedExactlyWhen | src/evoagent/benchmark_evidence/importer.py:137-166 | a payload is admitted exactly when its traversal in preorder is short enough and every visited value keeps the depth, key, array and string bounds |
| ShapeGuard.PartsAreAdmissible | src/evoagent/benchmark_evidence/importer.py:137-166 | every part of an accepted value would be accepted on its own |

## Left out

- SQL text, connections, write-ahead logging, file input and output, JSON and date parsing, canonical JSON and SHA-256: well-formed values and abstract digests instead. Date columns compared as ISO text are integers.
- Secret scanning and safe-content validation of payloads: not part of this model.
- Model evidence accumulation (`add_model_evidence`) and its audit event: insert-or-ignore beside the campaign state machine.
- `attach_candidate` and `approve` of the governance service: they only pass their arguments on; the store operations they call are modelled.
- Campaign cycle, Champion registry and activation orchestration: only the calls they make on campaigns and the approval gate are modelled.
- RoundAssessment.AssessRound: the comparisons with the policy's limits and the random resampling enter as the reasons they leave; usage and comparator evidence, and the choice of the best round, are not modelled.
- ComparisonPackage.BenchmarkComparisonPackageManager.Verify: leaves out safe-content validation and the two flags on official submission, which are constant.
- ComparisonTheorems.SameModelIsCanonical: does not say that the error is the same for every order, because the code reports the first failing run and that depends on the order.
- BenchmarkModels.ValidateRun: leaves out safe-content validation, and states which runs are accepted, not which of several failing checks is reported. The same holds for Verify, VerifyLineage, ValidateLedger and ValidateShape. The range constraints the record types enforce on single fields are preconditions.
- BenchmarkImporter.ParseJob: starts from parsed trials. Parsing of single trials, their usage and duration, the reading of declared totals, and the public subclass that only moves one count check first are not modelled.
- BenchmarkConservation.TaskMeanIsTrialMean: exact over the reals; rounding of floating-point sums is not modelled. The same holds for every figure in the evidence pipeline.
- Hashes inside sub-records (suite, agent and model identities, contracts, trials, aggregates, task deltas, eligibility) are not recomputed by the model; the hashes of runs, reports, assessments, events and packages are.
- ComparisonPackage.Assess: the flag for the pinned dataset and commits is constant, because a suite cannot be constructed without them.
- CheckpointLineage.VerifyLineage: file names, inventories of prompts and attempts, component hashes and the schema and hex checks on single fields are not modelled. The dictionary of snapshots is visited in arbitrary order.
- AtifLedger.FoldSteps: key sets, messages, model names, timestamps, tool names and identifier patterns are not modelled; a tool call carries the one result that answers it.
- AtifLedger.ValidateLedger: starts from the steps; the schema and identity checks before them and the digest of the file are not modelled.
- AdapterPatterns.PrepareClaudeCodeSource: the instruction prefix constant appears as the quoted line the script renders; characters are code points.
- Shape guard: values are JSON trees; Python's recursion limit is not modelled.
- PackageTheorems.BuiltFromRegistryVerifies: the two comparison identifiers are assumed different, which is how one registry table can hold both reports.
