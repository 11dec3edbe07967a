/**
 * Benchmark run evidence and its validator. A run record carries trials and
 * the figures derived from them; `RunValid` is what the validator accepts.
 * Floats are reals and the code's tolerance is kept.
 */
module BenchmarkModels {
  import opened Prelude
  import opened Ordering

  const TOLERANCE: real := 0.000000000001

  datatype Role = Baseline | Evolved | Comparator

  datatype Source = ExternalHarbor | SyntheticFixture

  datatype Task = Task(name: string, id: string, checksum: string)

  datatype Suite = Suite(id: string, rewardKey: string, tasks: seq<Task>, manifestAttested: bool, hash: string)

  datatype Agent = Agent(
    family: string, name: string, version: string, snapshot: string, round: nat, parent: Option<string>)

  datatype Model = Model(provider: string, name: string, revision: string, hash: string)

  datatype Contract = Contract(
    role: Role, suite: Suite, agent: Agent, model: Model, reasoningEffort: string, trialsPerTask: nat,
    timeoutMultiplier: real, agentTimeoutOverride: bool, verifierTimeoutOverride: bool, resourceOverrides: bool,
    upload: bool, public: bool, hubUri: Option<string>, trajectories: bool, defaultsAttested: bool,
    source: Source, budget: string, hash: string)

  /** The part of a contract that must not change between compared runs. */
  datatype FrozenTerms = FrozenTerms(
    suite: Suite, model: Model, reasoningEffort: string, trialsPerTask: nat, timeoutMultiplier: real,
    agentTimeoutOverride: bool, verifierTimeoutOverride: bool, resourceOverrides: bool, defaultsAttested: bool,
    source: Source, budget: string)

  function Frozen(c: Contract): FrozenTerms {
    FrozenTerms(c.suite, c.model, c.reasoningEffort, c.trialsPerTask, c.timeoutMultiplier, c.agentTimeoutOverride,
                c.verifierTimeoutOverride, c.resourceOverrides, c.defaultsAttested, c.source, c.budget)
  }

  datatype Trial = Trial(
    name: string, taskName: string, taskId: string, taskChecksum: string, agentName: string, agentVersion: string,
    modelProvider: string, modelName: string, reward: real, errorType: Option<string>,
    inputTokens: Option<nat>, cacheTokens: Option<nat>, outputTokens: Option<nat>, cost: Option<real>)

  datatype Aggregate = Aggregate(
    taskName: string, taskId: string, taskChecksum: string, trialCount: nat, score: real, errorCount: nat)

  datatype Run = Run(
    id: string, jobId: string, sourceSha: string, contract: Contract, startedAt: int, finishedAt: int,
    totalTrials: nat, erroredTrials: nat, cancelledTrials: nat, trials: seq<Trial>, aggregates: seq<Aggregate>,
    score: real, errorRate: real, tokensComplete: bool, costComplete: bool,
    inputTokens: Option<nat>, cacheTokens: Option<nat>, outputTokens: Option<nat>, cost: Option<real>, hash: string)

  /** Digest of a run record whose own hash field is blank. */
  type RunDigest = Run -> string

  predicate Near(a: real, b: real) {
    -TOLERANCE <= a - b <= TOLERANCE
  }

  // ---------------------------------------------------------------- figures over trials

  function TrialsOf(trials: seq<Trial>, name: string): seq<Trial> {
    if trials == [] then []
    else
      var last := trials[|trials| - 1];
      TrialsOf(trials[..|trials| - 1], name) + if last.taskName == name then [last] else []
  }

  function SumRewards(trials: seq<Trial>): real {
    if trials == [] then 0.0 else SumRewards(trials[..|trials| - 1]) + trials[|trials| - 1].reward
  }

  function CountErrors(trials: seq<Trial>): (n: nat)
    ensures n <= |trials|
  {
    if trials == [] then 0
    else CountErrors(trials[..|trials| - 1]) + if trials[|trials| - 1].errorType.Some? then 1 else 0
  }

  function CountCancelled(trials: seq<Trial>): nat {
    if trials == [] then 0
    else CountCancelled(trials[..|trials| - 1]) + if trials[|trials| - 1].errorType == Some("CancelledError") then 1 else 0
  }

  function MeanReward(trials: seq<Trial>): real
    requires trials != []
  {
    SumRewards(trials) / |trials| as real
  }

  function ErrorFraction(trials: seq<Trial>): real
    requires trials != []
  {
    CountErrors(trials) as real / |trials| as real
  }

  predicate Complete<A>(trials: seq<Trial>, field: Trial -> Option<A>) {
    forall i | 0 <= i < |trials| :: field(trials[i]).Some?
  }

  function SumTokens(trials: seq<Trial>, field: Trial -> Option<nat>): nat {
    if trials == [] then 0
    else
      var value := field(trials[|trials| - 1]);
      SumTokens(trials[..|trials| - 1], field) + if value.Some? then value.value else 0
  }

  function SumCost(trials: seq<Trial>): real {
    if trials == [] then 0.0
    else
      var value := trials[|trials| - 1].cost;
      SumCost(trials[..|trials| - 1]) + if value.Some? then value.value else 0.0
  }

  function Input(t: Trial): Option<nat> { t.inputTokens }
  function Cache(t: Trial): Option<nat> { t.cacheTokens }
  function Output(t: Trial): Option<nat> { t.outputTokens }
  function Cost(t: Trial): Option<real> { t.cost }

  predicate TokensComplete(trials: seq<Trial>) {
    Complete(trials, Input) && Complete(trials, Cache) && Complete(trials, Output)
  }

  // ---------------------------------------------------------------- tasks

  function TaskName(t: Task): string { t.name }
  function TaskId(t: Task): string { t.id }
  function TrialName(t: Trial): string { t.name }

  predicate SuiteValid(suite: Suite) {
    suite.tasks != [] && KeysDistinct(suite.tasks, TaskName) && KeysDistinct(suite.tasks, TaskId)
  }

  predicate TaskLeq(x: Task, y: Task) { StringLeq(x.name, y.name) }

  function SortedTasks(tasks: seq<Task>): seq<Task> {
    Sort(tasks, TaskLeq)
  }

  function FindTask(tasks: seq<Task>, name: string): (found: Option<Task>)
    ensures found.Some? ==> found.value in tasks && found.value.name == name
    ensures found.None? ==> forall i | 0 <= i < |tasks| :: tasks[i].name != name
  {
    var found := Lookup(tasks, TaskName, name);
    assert found.None? ==> forall i | 0 <= i < |tasks| :: TaskName(tasks[i]) != name;
    found
  }

  function AggregateTask(task: Task, items: seq<Trial>): Aggregate
    requires items != []
  {
    Aggregate(task.name, task.id, task.checksum, |items|, MeanReward(items), CountErrors(items))
  }

  /** One aggregate per frozen task, in name order. */
  function AggregatesFor(tasks: seq<Task>, trials: seq<Trial>): seq<Aggregate>
    requires forall i | 0 <= i < |tasks| :: TrialsOf(trials, tasks[i].name) != []
  {
    seq(|tasks|, i requires 0 <= i < |tasks| => AggregateTask(tasks[i], TrialsOf(trials, tasks[i].name)))
  }

  // ---------------------------------------------------------------- what the validator accepts

  predicate TrialFits(c: Contract, t: Trial) {
    var task := FindTask(c.suite.tasks, t.taskName);
    && task.Some? && t.taskId == task.value.id && t.taskChecksum == task.value.checksum
    && t.agentName == c.agent.name && t.agentVersion == c.agent.version
    && t.modelProvider == c.model.provider && t.modelName == c.model.name
  }

  predicate TrialValid(t: Trial) {
    && 0.0 <= t.reward <= 1.0 && (t.errorType.Some? ==> t.reward == 0.0)
    && (t.cost.Some? ==> t.cost.value >= 0.0)
  }

  /** The checks on what the trials cover; none of them looks at a derived figure. */
  predicate Covers(run: Run) {
    var c := run.contract;
    && SuiteValid(c.suite) && c.trialsPerTask > 0
    && run.startedAt <= run.finishedAt
    && |c.suite.tasks| * c.trialsPerTask == run.totalTrials == |run.trials|
    && KeysDistinct(run.trials, TrialName)
    && (forall i | 0 <= i < |run.trials| :: TrialValid(run.trials[i]) && TrialFits(c, run.trials[i]))
    && (forall i | 0 <= i < |c.suite.tasks| :: |TrialsOf(run.trials, c.suite.tasks[i].name)| == c.trialsPerTask)
    && run.erroredTrials == CountErrors(run.trials) && run.cancelledTrials == CountCancelled(run.trials)
  }

  predicate UsageDerived(run: Run) {
    var t := run.trials;
    && run.tokensComplete == TokensComplete(t)
    && (if run.tokensComplete
        then run.inputTokens == Some(SumTokens(t, Input)) && run.cacheTokens == Some(SumTokens(t, Cache))
             && run.outputTokens == Some(SumTokens(t, Output))
        else run.inputTokens.None? && run.cacheTokens.None? && run.outputTokens.None?)
    && run.costComplete == Complete(t, Cost)
    && (if run.costComplete then run.cost.Some? && Near(run.cost.value, SumCost(t)) && run.cost.value >= 0.0 else run.cost.None?)
  }

  /** The checks that recompute every derived figure from the trials. */
  predicate Derived(digest: RunDigest, run: Run)
    requires Covers(run)
  {
    TasksHaveTrials(run);
    && 0.0 <= run.score <= 1.0 && Near(run.score, MeanReward(run.trials))
    && 0.0 <= run.errorRate <= 1.0 && Near(run.errorRate, ErrorFraction(run.trials))
    && run.aggregates == AggregatesFor(SortedTasks(run.contract.suite.tasks), run.trials)
    && UsageDerived(run)
    && run.hash == digest(run.(hash := ""))
  }

  predicate RunValid(digest: RunDigest, run: Run) {
    Covers(run) && Derived(digest, run)
  }

  lemma TasksHaveTrials(run: Run)
    requires Covers(run)
    ensures run.trials != []
    ensures forall i | 0 <= i < |SortedTasks(run.contract.suite.tasks)| ::
              TrialsOf(run.trials, SortedTasks(run.contract.suite.tasks)[i].name) != []
  {
    var tasks := run.contract.suite.tasks;
    SortPermutes(tasks, TaskLeq);
    forall i | 0 <= i < |SortedTasks(tasks)| ensures TrialsOf(run.trials, SortedTasks(tasks)[i].name) != [] {
      assert SortedTasks(tasks)[i] in tasks;
      var j :| 0 <= j < |tasks| && tasks[j] == SortedTasks(tasks)[i];
    }
    TrialsOfNone(tasks[0].name);
    assert |TrialsOf(run.trials, tasks[0].name)| == run.contract.trialsPerTask;
  }

  lemma TrialsOfNone(name: string)
    ensures TrialsOf([], name) == []
  {
  }

  // ---------------------------------------------------------------- the validator

  datatype RunError =
    | BadTimes | WrongTrialCount | DuplicateTrialName | UnexpectedTask | TaskDrift | AgentDrift | ModelDrift
    | WrongTaskCoverage | WrongErrorCounts | WrongScore | WrongErrorRate | WrongAggregates | WrongTokenUsage
    | WrongCostUsage | WrongHash

  /** The identity check a trial fails first, if any. */
  function TrialFault(c: Contract, t: Trial): (fault: Option<RunError>)
    ensures fault.None? <==> TrialFits(c, t)
    ensures fault.None? ==> exists i :: 0 <= i < |c.suite.tasks| && c.suite.tasks[i].name == t.taskName
  {
    var expected := FindTask(c.suite.tasks, t.taskName);
    if expected.None? then Some(UnexpectedTask)
    else if t.taskId != expected.value.id || t.taskChecksum != expected.value.checksum then Some(TaskDrift)
    else if t.agentName != c.agent.name || t.agentVersion != c.agent.version then Some(AgentDrift)
    else if t.modelProvider != c.model.provider || t.modelName != c.model.name then Some(ModelDrift)
    else None
  }

  /** Group the trials by frozen task in one pass, refusing any trial that does not fit the contract. */
  method GroupTrials(c: Contract, trials: seq<Trial>) returns (r: Result<map<string, seq<Trial>>, RunError>)
    ensures r.Ok? <==> forall i | 0 <= i < |trials| :: TrialFits(c, trials[i])
    ensures r.Ok? ==> forall i | 0 <= i < |c.suite.tasks| ::
                        var name := c.suite.tasks[i].name; name in r.value && r.value[name] == TrialsOf(trials, name)
  {
    var byTask: map<string, seq<Trial>> := map i | 0 <= i < |c.suite.tasks| :: c.suite.tasks[i].name := [];
    for n := 0 to |trials|
      invariant forall i | 0 <= i < n :: TrialFits(c, trials[i])
      invariant forall i | 0 <= i < |c.suite.tasks| :: c.suite.tasks[i].name in byTask
      invariant forall name | name in byTask :: byTask[name] == TrialsOf(trials[..n], name)
    {
      var trial := trials[n];
      var fault := TrialFault(c, trial);
      if fault.Some? {
        return Err(fault.value);
      }
      assert trials[..n + 1][..n] == trials[..n];
      byTask := byTask[trial.taskName := byTask[trial.taskName] + [trial]];
    }
    assert trials[..|trials|] == trials;
    return Ok(byTask);
  }

  /** Aggregate each frozen task, in name order. */
  method RebuildAggregates(tasks: seq<Task>, trials: seq<Trial>, byTask: map<string, seq<Trial>>) returns (expected: seq<Aggregate>)
    requires forall i | 0 <= i < |tasks| :: tasks[i].name in byTask && byTask[tasks[i].name] == TrialsOf(trials, tasks[i].name) != []
    ensures expected == AggregatesFor(tasks, trials)
  {
    expected := [];
    for i := 0 to |tasks|
      invariant |expected| == i
      invariant forall j | 0 <= j < i :: expected[j] == AggregatesFor(tasks, trials)[j]
    {
      expected := expected + [AggregateTask(tasks[i], byTask[tasks[i].name])];
    }
  }

  method CheckUsage(run: Run) returns (r: Option<RunError>)
    requires run.cost.Some? ==> run.cost.value >= 0.0
    ensures r.None? <==> UsageDerived(run)
  {
    var trials := run.trials;
    var tokensComplete := TokensComplete(trials);
    if run.tokensComplete != tokensComplete {
      return Some(WrongTokenUsage);
    }
    if tokensComplete {
      if (run.inputTokens, run.cacheTokens, run.outputTokens)
         != (Some(SumTokens(trials, Input)), Some(SumTokens(trials, Cache)), Some(SumTokens(trials, Output))) {
        return Some(WrongTokenUsage);
      }
    } else if run.inputTokens.Some? || run.cacheTokens.Some? || run.outputTokens.Some? {
      return Some(WrongTokenUsage);
    }
    var costComplete := Complete(trials, Cost);
    if run.costComplete != costComplete {
      return Some(WrongCostUsage);
    }
    if costComplete {
      if run.cost.None? || !Near(run.cost.value, SumCost(trials)) {
        return Some(WrongCostUsage);
      }
    } else if run.cost.Some? {
      return Some(WrongCostUsage);
    }
    return None;
  }

  method CheckFigures(digest: RunDigest, run: Run, byTask: map<string, seq<Trial>>) returns (r: Option<RunError>)
    requires Covers(run)
    requires forall i | 0 <= i < |run.contract.suite.tasks| ::
               var name := run.contract.suite.tasks[i].name; name in byTask && byTask[name] == TrialsOf(run.trials, name)
    requires 0.0 <= run.score <= 1.0 && 0.0 <= run.errorRate <= 1.0 && (run.cost.Some? ==> run.cost.value >= 0.0)
    ensures r.None? <==> Derived(digest, run)
  {
    TasksHaveTrials(run);
    if !Near(run.score, MeanReward(run.trials)) {
      return Some(WrongScore);
    }
    if !Near(run.errorRate, ErrorFraction(run.trials)) {
      return Some(WrongErrorRate);
    }
    var tasks := run.contract.suite.tasks;
    var sorted := SortedTasks(tasks);
    SortPermutes(tasks, TaskLeq);
    forall i | 0 <= i < |sorted| ensures sorted[i].name in byTask && byTask[sorted[i].name] == TrialsOf(run.trials, sorted[i].name) {
      assert sorted[i] in tasks;
      var j :| 0 <= j < |tasks| && tasks[j] == sorted[i];
    }
    var expected := RebuildAggregates(sorted, run.trials, byTask);
    if run.aggregates != expected {
      return Some(WrongAggregates);
    }
    r := CheckUsage(run);
    if r.None? && run.hash != digest(run.(hash := "")) {
      return Some(WrongHash);
    }
  }

  /** `validate_run`: check the coverage, then recompute every derived figure. */
  method ValidateRun(digest: RunDigest, run: Run) returns (r: Option<RunError>)
    requires SuiteValid(run.contract.suite) && run.contract.trialsPerTask > 0
    requires forall i | 0 <= i < |run.trials| :: TrialValid(run.trials[i])
    requires 0.0 <= run.score <= 1.0 && 0.0 <= run.errorRate <= 1.0 && (run.cost.Some? ==> run.cost.value >= 0.0)
    ensures r.None? <==> RunValid(digest, run)
  {
    var c, trials := run.contract, run.trials;
    if run.finishedAt < run.startedAt {
      return Some(BadTimes);
    }
    var expectedTotal := |c.suite.tasks| * c.trialsPerTask;
    if run.totalTrials != expectedTotal || |trials| != expectedTotal {
      return Some(WrongTrialCount);
    }
    if !KeysDistinct(trials, TrialName) {
      return Some(DuplicateTrialName);
    }
    var grouped := GroupTrials(c, trials);
    if grouped.Err? {
      return Some(grouped.error);
    }
    var byTask := grouped.value;
    if exists i | 0 <= i < |c.suite.tasks| :: |byTask[c.suite.tasks[i].name]| != c.trialsPerTask {
      return Some(WrongTaskCoverage);
    }
    if run.erroredTrials != CountErrors(trials) || run.cancelledTrials != CountCancelled(trials) {
      return Some(WrongErrorCounts);
    }
    r := CheckFigures(digest, run, byTask);
  }
}
