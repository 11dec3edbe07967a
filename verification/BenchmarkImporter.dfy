/** Importing a Harbor job: the figures the importer derives are the ones the validator recomputes. */
module BenchmarkImporter {
  import opened Prelude
  import opened Ordering
  import opened BenchmarkModels

  /** What the job file says besides its trials; the declared totals are optional. */
  datatype Job = Job(
    evidenceId: string, jobId: string, sourceSha: string, contract: Contract, startedAt: int, finishedAt: int,
    totalTrials: int, erroredTrials: nat, cancelledTrials: nat,
    declaredInput: Option<nat>, declaredCache: Option<nat>, declaredOutput: Option<nat>, declaredCost: Option<real>)

  datatype ImportError = BadTrialCount | MissingTask(name: string) | TotalsDiffer | Invalid(why: RunError)

  predicate AllTasksTried(tasks: seq<Task>, trials: seq<Trial>) {
    forall i | 0 <= i < |tasks| :: TrialsOf(trials, tasks[i].name) != []
  }

  /** The record the importer assembles. */
  function BuildRun(digest: RunDigest, job: Job, trials: seq<Trial>): Run
    requires trials != [] && job.totalTrials == |trials|
    requires AllTasksTried(SortedTasks(job.contract.suite.tasks), trials)
  {
    var tokensComplete, costComplete := TokensComplete(trials), Complete(trials, Cost);
    var run := Run(
      job.evidenceId, job.jobId, job.sourceSha, job.contract, job.startedAt, job.finishedAt,
      job.totalTrials, job.erroredTrials, job.cancelledTrials, trials,
      AggregatesFor(SortedTasks(job.contract.suite.tasks), trials),
      MeanReward(trials), ErrorFraction(trials), tokensComplete, costComplete,
      if tokensComplete then Some(SumTokens(trials, Input)) else None,
      if tokensComplete then Some(SumTokens(trials, Cache)) else None,
      if tokensComplete then Some(SumTokens(trials, Output)) else None,
      if costComplete then Some(SumCost(trials)) else None, "");
    run.(hash := digest(run))
  }

  predicate DeclaredTotalsMatch(job: Job, trials: seq<Trial>) {
    && (TokensComplete(trials) ==>
          && (job.declaredInput.Some? ==> job.declaredInput.value == SumTokens(trials, Input))
          && (job.declaredCache.Some? ==> job.declaredCache.value == SumTokens(trials, Cache))
          && (job.declaredOutput.Some? ==> job.declaredOutput.value == SumTokens(trials, Output)))
    && (Complete(trials, Cost) && job.declaredCost.Some? ==>
          -0.000000001 <= job.declaredCost.value - SumCost(trials) <= 0.000000001)
  }

  /** Collect the trials of each frozen task in one pass; trials of other tasks are passed over. */
  method CollectByTask(tasks: seq<Task>, trials: seq<Trial>) returns (byTask: map<string, seq<Trial>>)
    ensures forall i | 0 <= i < |tasks| :: tasks[i].name in byTask && byTask[tasks[i].name] == TrialsOf(trials, tasks[i].name)
  {
    byTask := map i | 0 <= i < |tasks| :: tasks[i].name := [];
    for n := 0 to |trials|
      invariant forall i | 0 <= i < |tasks| :: tasks[i].name in byTask
      invariant forall name | name in byTask :: byTask[name] == TrialsOf(trials[..n], name)
    {
      assert trials[..n + 1][..n] == trials[..n];
      if trials[n].taskName in byTask {
        byTask := byTask[trials[n].taskName := byTask[trials[n].taskName] + [trials[n]]];
      }
    }
    assert trials[..|trials|] == trials;
  }

  /** `_build_task_aggregates`: one aggregate per frozen task, in name order, or the first task without a trial. */
  method BuildTaskAggregates(c: Contract, trials: seq<Trial>) returns (r: Result<seq<Aggregate>, ImportError>)
    ensures r.Ok? <==> AllTasksTried(SortedTasks(c.suite.tasks), trials)
    ensures r.Ok? ==> r.value == AggregatesFor(SortedTasks(c.suite.tasks), trials)
    ensures r.Err? ==> r.error.MissingTask? && TrialsOf(trials, r.error.name) == []
  {
    var tasks := SortedTasks(c.suite.tasks);
    var byTask := CollectByTask(tasks, trials);
    var aggregates: seq<Aggregate> := [];
    for i := 0 to |tasks|
      invariant |aggregates| == i
      invariant forall j | 0 <= j < i :: TrialsOf(trials, tasks[j].name) != []
      invariant forall j | 0 <= j < i :: aggregates[j] == AggregateTask(tasks[j], TrialsOf(trials, tasks[j].name))
    {
      var items := byTask[tasks[i].name];
      if items == [] {
        assert !AllTasksTried(tasks, trials);
        return Err(MissingTask(tasks[i].name));
      }
      aggregates := aggregates + [AggregateTask(tasks[i], items)];
    }
    return Ok(aggregates);
  }

  /** `_parse_job` from the parsed trials on: derive, compare with declared totals, then validate. */
  method ParseJob(digest: RunDigest, job: Job, trials: seq<Trial>, maxTrials: int) returns (r: Result<Run, ImportError>)
    requires SuiteValid(job.contract.suite) && job.contract.trialsPerTask > 0
    requires forall i | 0 <= i < |trials| :: TrialValid(trials[i])
    ensures r.Ok? <==> && 1 <= job.totalTrials <= maxTrials && |trials| == job.totalTrials
                       && AllTasksTried(SortedTasks(job.contract.suite.tasks), trials)
                       && DeclaredTotalsMatch(job, trials) && Covers(BuildRun(digest, job, trials))
    ensures r.Ok? ==> r.value == BuildRun(digest, job, trials) && RunValid(digest, r.value)
  {
    if job.totalTrials < 1 || job.totalTrials > maxTrials || |trials| != job.totalTrials {
      return Err(BadTrialCount);
    }
    var aggregates := BuildTaskAggregates(job.contract, trials);
    if aggregates.Err? {
      return Err(aggregates.error);
    }
    var run := BuildRun(digest, job, trials);
    assert run.aggregates == aggregates.value;
    if !DeclaredTotalsMatch(job, trials) {
      return Err(TotalsDiffer);
    }
    SumsStayInRange(trials);
    ImportedFiguresPassValidation(digest, job, trials);
    var refused := ValidateRun(digest, run);
    if refused.Some? {
      return Err(Invalid(refused.value));
    }
    return Ok(run);
  }

  lemma {:induction false} SumsStayInRange(trials: seq<Trial>)
    requires forall i | 0 <= i < |trials| :: TrialValid(trials[i])
    ensures 0.0 <= SumRewards(trials) <= |trials| as real && SumCost(trials) >= 0.0
    ensures trials != [] ==> 0.0 <= MeanReward(trials) <= 1.0 && 0.0 <= ErrorFraction(trials) <= 1.0
  {
    if trials != [] {
      var n := |trials| - 1;
      SumsStayInRange(trials[..n]);
      assert TrialValid(trials[n]);
      QuotientInUnit(SumRewards(trials), |trials| as real);
      QuotientInUnit(CountErrors(trials) as real, |trials| as real);
    }
  }

  lemma QuotientInUnit(a: real, b: real)
    requires 0.0 <= a <= b && b > 0.0
    ensures 0.0 <= a / b <= 1.0
  {
  }

  /**
   * The importer and the validator agree: of the validator's checks on an
   * imported record only the coverage checks can fail. Every derived figure
   * recomputes to what the importer stored.
   */
  lemma ImportedFiguresPassValidation(digest: RunDigest, job: Job, trials: seq<Trial>)
    requires trials != [] && job.totalTrials == |trials|
    requires AllTasksTried(SortedTasks(job.contract.suite.tasks), trials)
    ensures RunValid(digest, BuildRun(digest, job, trials)) <==> Covers(BuildRun(digest, job, trials))
  {
    var run := BuildRun(digest, job, trials);
    if Covers(run) {
      SumsStayInRange(trials);
      assert run.(hash := "") == run.(hash := "").(hash := "");
      assert Derived(digest, run);
    }
  }
}
