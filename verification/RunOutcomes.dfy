/** What a validated or imported run says about its trials, in sets of trials and sums over them. */
module RunOutcomes {
  import opened Prelude
  import opened Ordering
  import opened BenchmarkModels
  import opened BenchmarkImporter
  import opened RoundAssessment

  // ---------------------------------------------------------------- sums and counts

  /** Every sum grows by what the appended trial contributes; a missing figure contributes nothing. */
  lemma SumsOfAppend(trials: seq<Trial>, t: Trial)
    ensures SumRewards(trials + [t]) == SumRewards(trials) + t.reward
    ensures SumCost(trials + [t]) == SumCost(trials) + if t.cost.Some? then t.cost.value else 0.0
    ensures SumTokens(trials + [t], Input) == SumTokens(trials, Input) + if t.inputTokens.Some? then t.inputTokens.value else 0
    ensures SumTokens(trials + [t], Cache) == SumTokens(trials, Cache) + if t.cacheTokens.Some? then t.cacheTokens.value else 0
    ensures SumTokens(trials + [t], Output) == SumTokens(trials, Output) + if t.outputTokens.Some? then t.outputTokens.value else 0
    ensures SumRewards([]) == SumCost([]) == 0.0
    ensures SumTokens([], Input) == SumTokens([], Cache) == SumTokens([], Output) == 0
  {
    assert (trials + [t])[..|trials|] == trials;
  }

  /** The trials of a task that raised an error. */
  function ErroredOf(trials: seq<Trial>, name: string): set<nat> {
    set i | 0 <= i < |trials| && trials[i].taskName == name && trials[i].errorType.Some?
  }

  function Errored(trials: seq<Trial>): set<nat> {
    set i | 0 <= i < |trials| && trials[i].errorType.Some?
  }

  function Cancelled(trials: seq<Trial>): set<nat> {
    set i | 0 <= i < |trials| && trials[i].errorType == Some("CancelledError")
  }

  function Attempts(trials: seq<Trial>, name: string): set<nat> {
    set i | 0 <= i < |trials| && trials[i].taskName == name
  }

  lemma {:induction false} ErrorsAreCounted(trials: seq<Trial>)
    ensures CountErrors(trials) == |Errored(trials)|
  {
    if trials != [] {
      var n := |trials| - 1;
      ErrorsAreCounted(trials[..n]);
      assert Errored(trials) == Errored(trials[..n]) + if trials[n].errorType.Some? then {n} else {};
    }
  }

  lemma {:induction false} CancellationsAreCounted(trials: seq<Trial>)
    ensures CountCancelled(trials) == |Cancelled(trials)|
  {
    if trials != [] {
      var n := |trials| - 1;
      CancellationsAreCounted(trials[..n]);
      assert Cancelled(trials) == Cancelled(trials[..n]) + if trials[n].errorType == Some("CancelledError") then {n} else {};
    }
  }

  lemma {:induction false} AttemptsAreCounted(trials: seq<Trial>, name: string)
    ensures |TrialsOf(trials, name)| == |Attempts(trials, name)|
  {
    if trials != [] {
      var n := |trials| - 1;
      AttemptsAreCounted(trials[..n], name);
      assert Attempts(trials, name) == Attempts(trials[..n], name) + if trials[n].taskName == name then {n} else {};
    }
  }

  lemma CountErrorsOfAppend(trials: seq<Trial>, t: Trial)
    ensures CountErrors(trials + [t]) == CountErrors(trials) + if t.errorType.Some? then 1 else 0
  {
    assert (trials + [t])[..|trials|] == trials;
  }

  lemma ErroredOfPrefix(trials: seq<Trial>, name: string)
    requires trials != []
    ensures var n := |trials| - 1;
            && n !in ErroredOf(trials[..n], name)
            && ErroredOf(trials, name)
               == ErroredOf(trials[..n], name) + if trials[n].taskName == name && trials[n].errorType.Some? then {n} else {}
  {
  }

  lemma {:induction false} GroupErrorsAreCounted(trials: seq<Trial>, name: string)
    ensures CountErrors(TrialsOf(trials, name)) == |ErroredOf(trials, name)|
  {
    if trials != [] {
      var n := |trials| - 1;
      var rest := TrialsOf(trials[..n], name);
      GroupErrorsAreCounted(trials[..n], name);
      CountErrorsOfAppend(rest, trials[n]);
      assert rest + [] == rest;
      ErroredOfPrefix(trials, name);
    }
  }

  // ---------------------------------------------------------------- coverage

  /** The trial ran this task of the contract, by its agent, on its model. */
  predicate Runs(c: Contract, task: Task, t: Trial) {
    && t.taskName == task.name && t.taskId == task.id && t.taskChecksum == task.checksum
    && t.agentName == c.agent.name && t.agentVersion == c.agent.version
    && t.modelProvider == c.model.provider && t.modelName == c.model.name
  }

  ghost predicate TasksDistinct(tasks: seq<Task>) {
    forall i, j | 0 <= i < j < |tasks| :: tasks[i].name != tasks[j].name && tasks[i].id != tasks[j].id
  }

  ghost predicate InRange(trials: seq<Trial>) {
    forall i | 0 <= i < |trials| ::
      && 0.0 <= trials[i].reward <= 1.0 && (trials[i].errorType.Some? ==> trials[i].reward == 0.0)
      && (trials[i].cost.Some? ==> trials[i].cost.value >= 0.0)
  }

  ghost predicate RunsSome(c: Contract, t: Trial) {
    exists j | 0 <= j < |c.suite.tasks| :: Runs(c, c.suite.tasks[j], t)
  }

  ghost predicate AllRun(c: Contract, trials: seq<Trial>) {
    forall i | 0 <= i < |trials| :: RunsSome(c, trials[i])
  }

  ghost predicate AllAttempted(c: Contract, trials: seq<Trial>) {
    forall j | 0 <= j < |c.suite.tasks| :: |Attempts(trials, c.suite.tasks[j].name)| == c.trialsPerTask
  }

  /** The trials are what the contract froze: every task tried the agreed number of times, by the agreed agent and model. */
  ghost predicate CoversContract(run: Run) {
    var c, trials := run.contract, run.trials;
    && c.suite.tasks != [] && TasksDistinct(c.suite.tasks) && c.trialsPerTask > 0
    && run.startedAt <= run.finishedAt
    && run.totalTrials == |trials| == |c.suite.tasks| * c.trialsPerTask
    && (forall i, j | 0 <= i < j < |trials| :: trials[i].name != trials[j].name)
    && InRange(trials) && AllRun(c, trials) && AllAttempted(c, trials)
    && run.erroredTrials == |Errored(trials)| && run.cancelledTrials == |Cancelled(trials)|
  }

  lemma SuiteIsDistinct(suite: Suite)
    ensures SuiteValid(suite) <==> suite.tasks != [] && TasksDistinct(suite.tasks)
  {
    KeysBound(suite.tasks, TaskName);
    KeysBound(suite.tasks, TaskId);
    assert forall i, j | 0 <= i < j < |suite.tasks| ::
        (TaskName(suite.tasks[i]) != TaskName(suite.tasks[j]) <==> suite.tasks[i].name != suite.tasks[j].name)
        && (TaskId(suite.tasks[i]) != TaskId(suite.tasks[j]) <==> suite.tasks[i].id != suite.tasks[j].id);
  }

  lemma FitsIsRuns(c: Contract, t: Trial)
    requires TasksDistinct(c.suite.tasks)
    ensures TrialFits(c, t) <==> RunsSome(c, t)
  {
    var tasks, found := c.suite.tasks, FindTask(c.suite.tasks, t.taskName);
    if found.Some? {
      var k :| 0 <= k < |tasks| && tasks[k] == found.value;
      assert TrialFits(c, t) <==> Runs(c, tasks[k], t);
      assert forall j | 0 <= j < |tasks| && tasks[j].name == t.taskName :: j == k;
    }
  }

  lemma NamesDistinctTrials(trials: seq<Trial>)
    ensures KeysDistinct(trials, TrialName) <==> forall i, j | 0 <= i < j < |trials| :: trials[i].name != trials[j].name
  {
    KeysBound(trials, TrialName);
    assert forall i, j | 0 <= i < j < |trials| :: TrialName(trials[i]) != TrialName(trials[j]) <==> trials[i].name != trials[j].name;
  }

  lemma AllFitIsAllRun(c: Contract, trials: seq<Trial>)
    requires TasksDistinct(c.suite.tasks)
    ensures (forall i | 0 <= i < |trials| :: TrialFits(c, trials[i])) <==> AllRun(c, trials)
  {
    forall i | 0 <= i < |trials| ensures TrialFits(c, trials[i]) <==> RunsSome(c, trials[i]) {
      FitsIsRuns(c, trials[i]);
    }
  }

  lemma GroupsAreAttempts(c: Contract, trials: seq<Trial>)
    ensures (forall j | 0 <= j < |c.suite.tasks| :: |TrialsOf(trials, c.suite.tasks[j].name)| == c.trialsPerTask)
            <==> AllAttempted(c, trials)
  {
    forall j | 0 <= j < |c.suite.tasks|
      ensures |TrialsOf(trials, c.suite.tasks[j].name)| == |Attempts(trials, c.suite.tasks[j].name)|
    {
      AttemptsAreCounted(trials, c.suite.tasks[j].name);
    }
  }

  lemma ValidIsInRange(trials: seq<Trial>)
    ensures (forall i | 0 <= i < |trials| :: TrialValid(trials[i])) <==> InRange(trials)
  {
  }

  lemma CoveredContract(run: Run)
    requires Covers(run)
    ensures CoversContract(run)
  {
    var c, trials := run.contract, run.trials;
    SuiteIsDistinct(c.suite);
    NamesDistinctTrials(trials);
    ErrorsAreCounted(trials);
    CancellationsAreCounted(trials);
    GroupsAreAttempts(c, trials);
    ValidIsInRange(trials);
    AllFitIsAllRun(c, trials);
  }

  lemma ContractCovered(run: Run)
    requires CoversContract(run)
    ensures Covers(run)
  {
    var c, trials := run.contract, run.trials;
    SuiteIsDistinct(c.suite);
    NamesDistinctTrials(trials);
    ErrorsAreCounted(trials);
    CancellationsAreCounted(trials);
    GroupsAreAttempts(c, trials);
    ValidIsInRange(trials);
    AllFitIsAllRun(c, trials);
  }

  /** The coverage checks of the validator hold exactly when the trials cover the contract. */
  lemma CoversExactlyWhen(run: Run)
    ensures Covers(run) <==> CoversContract(run)
  {
    if Covers(run) {
      CoveredContract(run);
    }
    if CoversContract(run) {
      ContractCovered(run);
    }
  }

  // ---------------------------------------------------------------- derived figures

  /** The aggregate of a task: its identity, its trials, their mean reward and their errors. */
  ghost predicate AggregateTells(a: Aggregate, task: Task, run: Run)
    requires run.contract.trialsPerTask > 0
  {
    && a.taskName == task.name && a.taskId == task.id && a.taskChecksum == task.checksum
    && a.trialCount == run.contract.trialsPerTask
    && a.score == SumRewards(TrialsOf(run.trials, task.name)) / run.contract.trialsPerTask as real
    && a.errorCount == |ErroredOf(run.trials, task.name)|
  }

  ghost predicate TellsSomeTask(a: Aggregate, run: Run)
    requires run.contract.trialsPerTask > 0
  {
    exists task :: task in run.contract.suite.tasks && AggregateTells(a, task, run)
  }

  ghost predicate TaskIsTold(task: Task, run: Run)
    requires run.contract.trialsPerTask > 0
  {
    exists i :: 0 <= i < |run.aggregates| && AggregateTells(run.aggregates[i], task, run)
  }

  /** The aggregates list every frozen task once, in name order. */
  ghost predicate AggregatesTell(run: Run)
    requires run.contract.trialsPerTask > 0
  {
    && |run.aggregates| == |run.contract.suite.tasks|
    && (forall i, j | 0 <= i < j < |run.aggregates| :: StringLeq(run.aggregates[i].taskName, run.aggregates[j].taskName))
    && (forall i | 0 <= i < |run.aggregates| :: TellsSomeTask(run.aggregates[i], run))
    && (forall task | task in run.contract.suite.tasks :: TaskIsTold(task, run))
  }

  /** Token totals appear exactly when every trial reports all three counts, cost exactly when every trial reports one. */
  ghost predicate UsageTells(run: Run) {
    var t := run.trials;
    && (run.tokensComplete <==> forall i | 0 <= i < |t| :: t[i].inputTokens.Some? && t[i].cacheTokens.Some? && t[i].outputTokens.Some?)
    && (run.tokensComplete ==> run.inputTokens == Some(SumTokens(t, Input)) && run.cacheTokens == Some(SumTokens(t, Cache))
                               && run.outputTokens == Some(SumTokens(t, Output)))
    && (!run.tokensComplete ==> run.inputTokens == None && run.cacheTokens == None && run.outputTokens == None)
    && (run.costComplete <==> forall i | 0 <= i < |t| :: t[i].cost.Some?)
    && (run.costComplete ==> run.cost.Some? && -0.000000000001 <= run.cost.value - SumCost(t) <= 0.000000000001)
    && (!run.costComplete ==> run.cost == None)
  }

  lemma SortedTaskAggregates(run: Run)
    requires Covers(run)
    ensures run.contract.trialsPerTask > 0
    ensures var tasks := SortedTasks(run.contract.suite.tasks);
            && (forall i | 0 <= i < |tasks| :: TrialsOf(run.trials, tasks[i].name) != [])
            && forall i | 0 <= i < |tasks| :: AggregateTells(AggregatesFor(tasks, run.trials)[i], tasks[i], run)
  {
    var given, tasks := run.contract.suite.tasks, SortedTasks(run.contract.suite.tasks);
    TasksHaveTrials(run);
    SortPermutes(given, TaskLeq);
    forall i | 0 <= i < |tasks| ensures AggregateTells(AggregatesFor(tasks, run.trials)[i], tasks[i], run) {
      GroupErrorsAreCounted(run.trials, tasks[i].name);
      assert tasks[i] in given;
      var j :| 0 <= j < |given| && given[j] == tasks[i];
    }
  }

  lemma TasksInOrder(tasks: seq<Task>)
    ensures var sorted := SortedTasks(tasks);
            && |sorted| == |tasks| && (forall x :: x in sorted <==> x in tasks)
            && forall i, j | 0 <= i < j < |sorted| :: StringLeq(sorted[i].name, sorted[j].name)
  {
    var sorted := SortedTasks(tasks);
    TaskOrder();
    SortPermutes(tasks, TaskLeq);
    SortSorts(tasks, TaskLeq);
    forall i, j | 0 <= i < j < |sorted| ensures StringLeq(sorted[i].name, sorted[j].name) {
      assert TaskLeq(sorted[i], sorted[j]);
    }
  }

  lemma DerivedAggregatesTell(run: Run, tasks: seq<Task>)
    requires run.contract.trialsPerTask > 0 && tasks == SortedTasks(run.contract.suite.tasks)
    requires |run.aggregates| == |tasks| && forall i | 0 <= i < |tasks| :: AggregateTells(run.aggregates[i], tasks[i], run)
    ensures AggregatesTell(run)
  {
    TasksInOrder(run.contract.suite.tasks);
    forall i | 0 <= i < |run.aggregates| ensures TellsSomeTask(run.aggregates[i], run) {
      assert tasks[i] in run.contract.suite.tasks && AggregateTells(run.aggregates[i], tasks[i], run);
    }
    forall task | task in run.contract.suite.tasks ensures TaskIsTold(task, run) {
      assert task in tasks;
      var i :| 0 <= i < |tasks| && tasks[i] == task;
      assert AggregateTells(run.aggregates[i], task, run);
    }
    forall i, j | 0 <= i < j < |run.aggregates| ensures StringLeq(run.aggregates[i].taskName, run.aggregates[j].taskName) {
      assert AggregateTells(run.aggregates[i], tasks[i], run) && AggregateTells(run.aggregates[j], tasks[j], run);
    }
  }

  lemma UsageIsTold(run: Run)
    requires UsageDerived(run)
    ensures UsageTells(run)
  {
    var t := run.trials;
    assert TokensComplete(t) <==> forall i | 0 <= i < |t| :: t[i].inputTokens.Some? && t[i].cacheTokens.Some? && t[i].outputTokens.Some?;
    assert Complete(t, Cost) <==> forall i | 0 <= i < |t| :: t[i].cost.Some?;
  }

  /** A validated run covers its contract, carries its own hash, and its usage totals are the sums over its trials. */
  lemma ValidRunTells(digest: RunDigest, run: Run)
    requires RunValid(digest, run)
    ensures CoversContract(run) && UsageTells(run) && run.hash == digest(run.(hash := ""))
  {
    CoversExactlyWhen(run);
    UsageIsTold(run);
  }

  /** Its score is the mean reward and its error rate the share of errored trials, within the tolerance. */
  lemma ValidScoresTell(digest: RunDigest, run: Run)
    requires RunValid(digest, run)
    ensures run.trials != []
    ensures 0.0 <= run.score <= 1.0 && -0.000000000001 <= run.score - SumRewards(run.trials) / |run.trials| as real <= 0.000000000001
    ensures 0.0 <= run.errorRate <= 1.0
            && -0.000000000001 <= run.errorRate - |Errored(run.trials)| as real / |run.trials| as real <= 0.000000000001
  {
    TasksHaveTrials(run);
    ErrorsAreCounted(run.trials);
  }

  /** Its aggregates are the frozen tasks, each once, in name order, with the exact figures of their trials. */
  lemma ValidAggregatesTell(digest: RunDigest, run: Run)
    requires RunValid(digest, run)
    ensures run.contract.trialsPerTask > 0 && AggregatesTell(run)
  {
    SortedTaskAggregates(run);
    DerivedAggregatesTell(run, SortedTasks(run.contract.suite.tasks));
  }

  // ---------------------------------------------------------------- imported runs

  /** Declared totals are held against the trials only where the trials are complete, and then must agree. */
  lemma DeclaredTotalsDisagree(job: Job, trials: seq<Trial>)
    ensures var counted := forall i | 0 <= i < |trials| ::
              trials[i].inputTokens.Some? && trials[i].cacheTokens.Some? && trials[i].outputTokens.Some?;
            var priced := forall i | 0 <= i < |trials| :: trials[i].cost.Some?;
            !DeclaredTotalsMatch(job, trials) <==>
              || (counted && job.declaredInput.Some? && job.declaredInput.value != SumTokens(trials, Input))
              || (counted && job.declaredCache.Some? && job.declaredCache.value != SumTokens(trials, Cache))
              || (counted && job.declaredOutput.Some? && job.declaredOutput.value != SumTokens(trials, Output))
              || (priced && job.declaredCost.Some?
                  && (job.declaredCost.value - SumCost(trials) > 0.000000001 || SumCost(trials) - job.declaredCost.value > 0.000000001))
  {
    assert TokensComplete(trials) <==> forall i | 0 <= i < |trials| ::
        trials[i].inputTokens.Some? && trials[i].cacheTokens.Some? && trials[i].outputTokens.Some?;
    assert Complete(trials, Cost) <==> forall i | 0 <= i < |trials| :: trials[i].cost.Some?;
  }

  /** An import carries the job's identity and times over, and its figures are the exact means. */
  lemma ImportCarriesJob(digest: RunDigest, job: Job, trials: seq<Trial>)
    requires trials != [] && job.totalTrials == |trials|
    requires AllTasksTried(SortedTasks(job.contract.suite.tasks), trials)
    ensures var run := BuildRun(digest, job, trials);
            && run.id == job.evidenceId && run.jobId == job.jobId && run.sourceSha == job.sourceSha
            && run.contract == job.contract && run.startedAt == job.startedAt && run.finishedAt == job.finishedAt
            && run.totalTrials == job.totalTrials && run.erroredTrials == job.erroredTrials
            && run.cancelledTrials == job.cancelledTrials && run.trials == trials
            && run.score == SumRewards(trials) / |trials| as real
            && run.errorRate == |Errored(trials)| as real / |trials| as real
            && (run.costComplete ==> run.cost == Some(SumCost(trials)))
  {
    ErrorsAreCounted(trials);
  }
}
