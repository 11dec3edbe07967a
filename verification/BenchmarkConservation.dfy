/** Aggregation conserves reward: the run score is the mean of the per-task scores. */
module BenchmarkConservation {
  import opened Prelude
  import opened Ordering
  import opened BenchmarkModels
  import opened BenchmarkImporter

  function SumOverTasks(tasks: seq<Task>, trials: seq<Trial>): real {
    if tasks == [] then 0.0 else SumRewards(TrialsOf(trials, tasks[0].name)) + SumOverTasks(tasks[1..], trials)
  }

  function SumScores(aggregates: seq<Aggregate>): real {
    if aggregates == [] then 0.0 else aggregates[0].score + SumScores(aggregates[1..])
  }

  /** The mean of the per-task scores. */
  function TaskMean(run: Run): real
    requires run.aggregates != []
  {
    SumScores(run.aggregates) / |run.aggregates| as real
  }

  lemma {:induction false} GroupGrows(trials: seq<Trial>, t: Trial, name: string)
    ensures TrialsOf(trials + [t], name) == TrialsOf(trials, name) + if t.taskName == name then [t] else []
    ensures SumRewards(TrialsOf(trials + [t], name))
         == SumRewards(TrialsOf(trials, name)) + if t.taskName == name then t.reward else 0.0
  {
    assert (trials + [t])[..|trials|] == trials;
    var group := TrialsOf(trials, name);
    assert (group + [t])[..|group|] == group;
    assert group + [] == group;
  }

  ghost predicate NamesDistinct(tasks: seq<Task>) {
    forall i, j | 0 <= i < j < |tasks| :: tasks[i].name != tasks[j].name
  }

  lemma {:induction false} OneTrialOneGroup(tasks: seq<Task>, trials: seq<Trial>, t: Trial)
    requires NamesDistinct(tasks)
    ensures SumOverTasks(tasks, trials + [t])
         == SumOverTasks(tasks, trials) + if exists i :: 0 <= i < |tasks| && tasks[i].name == t.taskName then t.reward else 0.0
  {
    if tasks != [] {
      OneTrialOneGroup(tasks[1..], trials, t);
      GroupGrows(trials, t, tasks[0].name);
      assert forall i | 0 <= i < |tasks[1..]| :: tasks[1..][i] == tasks[i + 1];
      if tasks[0].name == t.taskName {
        assert forall i | 0 <= i < |tasks[1..]| :: tasks[1..][i].name != t.taskName;
      } else {
        assert (exists i :: 0 <= i < |tasks| && tasks[i].name == t.taskName)
           <==> (exists i :: 0 <= i < |tasks[1..]| && tasks[1..][i].name == t.taskName) by {
          if i :| 0 <= i < |tasks| && tasks[i].name == t.taskName {
            assert tasks[1..][i - 1].name == t.taskName;
          }
        }
      }
    }
  }

  /** Splitting the trials by task loses no reward and counts none twice. */
  lemma {:induction false} GroupsPartitionReward(tasks: seq<Task>, trials: seq<Trial>)
    requires NamesDistinct(tasks)
    requires forall k | 0 <= k < |trials| :: exists i :: 0 <= i < |tasks| && tasks[i].name == trials[k].taskName
    ensures SumOverTasks(tasks, trials) == SumRewards(trials)
  {
    if trials == [] {
      EmptyGroups(tasks);
    } else {
      var n := |trials| - 1;
      assert trials == trials[..n] + [trials[n]];
      GroupsPartitionReward(tasks, trials[..n]);
      OneTrialOneGroup(tasks, trials[..n], trials[n]);
    }
  }

  lemma {:induction false} EmptyGroups(tasks: seq<Task>)
    ensures SumOverTasks(tasks, []) == 0.0
  {
    if tasks != [] {
      TrialsOfNone(tasks[0].name);
      EmptyGroups(tasks[1..]);
    }
  }

  /** `k` copies of `a` added up. */
  function Times(k: nat, a: real): real {
    if k == 0 then 0.0 else a + Times(k - 1, a)
  }

  lemma {:induction false} TimesIsProduct(k: nat, a: real)
    ensures Times(k, a) == a * k as real
  {
    if k > 0 {
      TimesIsProduct(k - 1, a);
    }
  }

  lemma {:induction false} TimesAdds(k: nat, a: real, b: real)
    ensures Times(k, a + b) == Times(k, a) + Times(k, b)
  {
    if k > 0 {
      TimesAdds(k - 1, a, b);
    }
  }

  lemma {:induction false} TimesZero(k: nat)
    ensures Times(k, 0.0) == 0.0
  {
    if k > 0 {
      TimesZero(k - 1);
    }
  }

  lemma MeanTimesCount(trials: seq<Trial>)
    requires trials != []
    ensures Times(|trials|, MeanReward(trials)) == SumRewards(trials)
  {
    TimesIsProduct(|trials|, MeanReward(trials));
  }

  lemma AggregatesUnfold(tasks: seq<Task>, trials: seq<Trial>)
    requires tasks != [] && AllTasksTried(tasks, trials)
    ensures AllTasksTried(tasks[1..], trials)
    ensures var group := TrialsOf(trials, tasks[0].name);
            SumScores(AggregatesFor(tasks, trials)) == MeanReward(group) + SumScores(AggregatesFor(tasks[1..], trials))
  {
    assert forall i | 0 <= i < |tasks[1..]| :: tasks[1..][i] == tasks[i + 1];
    assert AggregatesFor(tasks, trials)[1..] == AggregatesFor(tasks[1..], trials);
  }

  lemma {:induction false} ScoresAreGroupMeans(tasks: seq<Task>, trials: seq<Trial>, k: nat)
    requires k > 0 && forall i | 0 <= i < |tasks| :: |TrialsOf(trials, tasks[i].name)| == k
    ensures AllTasksTried(tasks, trials)
    ensures Times(k, SumScores(AggregatesFor(tasks, trials))) == SumOverTasks(tasks, trials)
  {
    if tasks == [] {
      assert AggregatesFor(tasks, trials) == [];
      TimesZero(k);
    } else {
      var group := TrialsOf(trials, tasks[0].name);
      assert |group| == k;
      assert AllTasksTried(tasks, trials);
      AggregatesUnfold(tasks, trials);
      ScoresAreGroupMeans(tasks[1..], trials, k);
      MeanTimesCount(group);
      TimesAdds(k, MeanReward(group), SumScores(AggregatesFor(tasks[1..], trials)));
    }
  }

  lemma SortedTasksCover(run: Run)
    requires Covers(run)
    ensures var tasks := SortedTasks(run.contract.suite.tasks);
            && |tasks| == |run.contract.suite.tasks| && NamesDistinct(tasks)
            && (forall i | 0 <= i < |tasks| :: |TrialsOf(run.trials, tasks[i].name)| == run.contract.trialsPerTask)
            && (forall k | 0 <= k < |run.trials| :: exists i :: 0 <= i < |tasks| && tasks[i].name == run.trials[k].taskName)
  {
    var given := run.contract.suite.tasks;
    var tasks := SortedTasks(given);
    SortPermutes(given, TaskLeq);
    KeysPermute(given, tasks, TaskName);
    KeysBound(tasks, TaskName);
    assert forall i, j | 0 <= i < j < |tasks| :: TaskName(tasks[i]) != TaskName(tasks[j]);
    forall i | 0 <= i < |tasks| ensures |TrialsOf(run.trials, tasks[i].name)| == run.contract.trialsPerTask {
      assert tasks[i] in given;
      var j :| 0 <= j < |given| && given[j] == tasks[i];
    }
    forall k | 0 <= k < |run.trials| ensures exists i :: 0 <= i < |tasks| && tasks[i].name == run.trials[k].taskName {
      assert TrialFits(run.contract, run.trials[k]);
      var task := FindTask(given, run.trials[k].taskName).value;
      assert task in tasks;
    }
  }

  /** The mean of the per-task means is the mean over all trials, exactly. */
  lemma TaskMeanIsTrialMean(digest: RunDigest, run: Run)
    requires RunValid(digest, run)
    ensures run.trials != [] && run.aggregates != []
    ensures TaskMean(run) == MeanReward(run.trials)
  {
    TasksHaveTrials(run);
    SumsAgree(digest, run);
    MeanOfMeans(SumScores(run.aggregates), SumRewards(run.trials), |run.aggregates|, run.contract.trialsPerTask, |run.trials|);
  }

  lemma SumsAgree(digest: RunDigest, run: Run)
    requires RunValid(digest, run)
    ensures |run.aggregates| == |run.contract.suite.tasks|
    ensures Times(run.contract.trialsPerTask, SumScores(run.aggregates)) == SumRewards(run.trials)
  {
    SortedTasksCover(run);
    GroupsPartitionReward(SortedTasks(run.contract.suite.tasks), run.trials);
    ScoresAreGroupMeans(SortedTasks(run.contract.suite.tasks), run.trials, run.contract.trialsPerTask);
  }

  lemma MeanOfMeans(scores: real, rewards: real, n: nat, k: nat, total: nat)
    requires n > 0 && k > 0 && n * k == total && Times(k, scores) == rewards
    ensures total > 0 && scores / n as real == rewards / total as real
  {
    TimesIsProduct(k, scores);
    assert total > 0 by {
      assert n * k >= n;
    }
    assert n as real * k as real == total as real;
    var q := scores / n as real;
    assert q * n as real == scores;
    assert q * (n as real * k as real) == (q * n as real) * k as real;
    assert q * total as real == rewards;
  }

  /** A validated score is the mean of its per-task scores within the tolerance; an imported one exactly. */
  lemma ScoreIsTaskMean(digest: RunDigest, run: Run)
    requires RunValid(digest, run)
    ensures run.aggregates != [] && Near(run.score, TaskMean(run))
  {
    TaskMeanIsTrialMean(digest, run);
  }

  lemma ImportedScoreIsTaskMean(digest: RunDigest, job: Job, trials: seq<Trial>)
    requires trials != [] && job.totalTrials == |trials|
    requires AllTasksTried(SortedTasks(job.contract.suite.tasks), trials)
    requires Covers(BuildRun(digest, job, trials))
    ensures var run := BuildRun(digest, job, trials);
            run.aggregates != [] && run.score == TaskMean(run)
  {
    ImportedFiguresPassValidation(digest, job, trials);
    TaskMeanIsTrialMean(digest, BuildRun(digest, job, trials));
  }
}
