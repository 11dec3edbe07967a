/**
 * The promotion gate's assessment of an evolved round, against the validator
 * of the assessment record and against the longitudinal report. The gates
 * that compare figures with a policy, and the resampling behind one of them,
 * enter as the two lists of reasons they leave.
 */
module RoundAssessment {
  import opened Prelude
  import opened Ordering
  import opened BenchmarkModels
  import opened BenchmarkImporter
  import opened BenchmarkComparison
  import opened ComparisonTheorems

  datatype Status = Eligible | InsufficientEvidence | Rejected

  datatype ChampionDelta = ChampionDelta(taskName: string, baseline: real, candidate: real, delta: real)

  datatype Assessment = Assessment(
    runId: string, snapshot: string, round: nat, score: real, gain: real, taskDeltas: seq<ChampionDelta>,
    improved: int, regressed: int, tied: int, regressionFraction: real, errorRateDelta: real, observedMean: real,
    status: Status, reasons: seq<string>, hash: string)

  datatype AssessError = ManifestChanged | NoTaskDeltas

  /** Digest of an assessment whose own hash field is blank. */
  type AssessmentDigest = Assessment -> string

  // ---------------------------------------------------------------- deriving an assessment

  function Identity(name: string): string { name }

  /** One delta per task of the baseline, in name order. */
  function ChampionDeltas(base: Run, candidate: Run): seq<ChampionDelta> {
    var names := Sort(Names(base.aggregates), StringLeq);
    seq(|names|, i requires 0 <= i < |names| =>
      var before, after := ScoreAt(base.aggregates, names[i]), ScoreAt(candidate.aggregates, names[i]);
      ChampionDelta(names[i], before, after, after - before))
  }

  function Changes(deltas: seq<ChampionDelta>): seq<real> {
    seq(|deltas|, i requires 0 <= i < |deltas| => deltas[i].delta)
  }

  /** `dict.fromkeys`: each reason once, where it first appears. */
  function Once(reasons: seq<string>): seq<string> {
    if reasons == [] then []
    else
      var n := |reasons| - 1;
      var earlier := Once(reasons[..n]);
      if reasons[n] in earlier then earlier else earlier + [reasons[n]]
  }

  function Verdict(hard: seq<string>, insufficient: seq<string>): (Status, seq<string>) {
    if hard != [] then (Rejected, Once(hard + insufficient))
    else if insufficient != [] then (InsufficientEvidence, Once(insufficient))
    else (Eligible, [])
  }

  /** `_assess_round`: deltas, gain, outcome counts and verdict for one candidate run. */
  function AssessRound(digest: AssessmentDigest, base: Run, candidate: Run, hard: seq<string>, insufficient: seq<string>)
    : Result<Assessment, AssessError>
  {
    if Keys(Names(candidate.aggregates), Identity) != Keys(Names(base.aggregates), Identity) then Err(ManifestChanged)
    else
      var deltas := ChampionDeltas(base, candidate);
      if deltas == [] then Err(NoTaskDeltas)
      else
        var changes := Changes(deltas);
        var improved, regressed := CountAbove(changes), CountBelow(changes);
        var verdict := Verdict(hard, insufficient);
        var a := Assessment(
          candidate.id, candidate.contract.agent.snapshot, Round(candidate), candidate.score, Mean(changes), deltas,
          improved, regressed, |changes| - improved - regressed, regressed as real / |changes| as real,
          candidate.errorRate - base.errorRate, Mean(changes), verdict.0, verdict.1, "");
        Ok(a.(hash := digest(a)))
  }

  // ---------------------------------------------------------------- the record's own validator

  ghost predicate Distinct(reasons: seq<string>) {
    forall i, j | 0 <= i < j < |reasons| :: reasons[i] != reasons[j]
  }

  /** The ranges and derived values the assessment record and its task deltas are validated for. */
  ghost predicate AssessmentValid(digest: AssessmentDigest, a: Assessment) {
    && a.round >= 1 && 0.0 <= a.score <= 1.0
    && a.taskDeltas != []
    && (forall i | 0 <= i < |a.taskDeltas| ::
          var t := a.taskDeltas[i];
          0.0 <= t.baseline <= 1.0 && 0.0 <= t.candidate <= 1.0 && Near(t.delta, t.candidate - t.baseline))
    && OutcomesDerived(a)
    && Distinct(a.reasons) && (a.status.Eligible? <==> a.reasons == [])
    && a.hash == digest(a.(hash := ""))
  }

  predicate OutcomesDerived(a: Assessment)
    requires a.taskDeltas != []
  {
    var changes := Changes(a.taskDeltas);
    && a.improved == CountAbove(changes) && a.regressed == CountBelow(changes)
    && a.tied == |changes| - a.improved - a.regressed && a.tied >= 0
    && 0.0 <= a.regressionFraction <= 1.0 && Near(a.regressionFraction, CountBelow(changes) as real / |changes| as real)
    && Near(a.gain, Mean(changes)) && Near(a.observedMean, a.gain)
  }

  lemma {:induction false} OnceIsDistinct(reasons: seq<string>)
    ensures Distinct(Once(reasons)) && (Once(reasons) == [] <==> reasons == [])
  {
    if reasons != [] {
      OnceIsDistinct(reasons[..|reasons| - 1]);
    }
  }

  // ---------------------------------------------------------------- the deltas of validated runs

  lemma TaskOrder()
    ensures TotalPreorder(TaskLeq)
  {
    StringLeqIsOrder();
    forall x: Task, y: Task ensures TaskLeq(x, y) || TaskLeq(y, x) {
      StringLeqTotal(x.name, y.name);
    }
    forall x: Task, y: Task, z: Task | TaskLeq(x, y) && TaskLeq(y, z) ensures TaskLeq(x, z) {
      StringLeqTransitive(x.name, y.name, z.name);
    }
  }

  lemma SortedStrings(names: seq<string>)
    requires Sorted(StringLeq, names)
    ensures Sort(names, StringLeq) == names
  {
    StringLeqIsOrder();
    SortPermutes(names, StringLeq);
    SortSorts(names, StringLeq);
    SortedIsUnique(Sort(names, StringLeq), names, StringLeq);
  }

  /** The aggregates of a validated run already stand in name order. */
  lemma AggregatesAreSorted(digest: RunDigest, run: Run)
    requires RunValid(digest, run)
    ensures Sort(Names(run.aggregates), StringLeq) == Names(run.aggregates)
  {
    var tasks, names := SortedTasks(run.contract.suite.tasks), Names(run.aggregates);
    TaskOrder();
    SortSorts(run.contract.suite.tasks, TaskLeq);
    NamesFollowSuite(digest, run);
    forall i, j | 0 <= i < j < |names| ensures StringLeq(names[i], names[j]) {
      assert TaskLeq(tasks[i], tasks[j]);
    }
    SortedStrings(names);
  }

  /** Two runs list the same tasks, each once, in name order. */
  ghost predicate Aligned(base: Run, candidate: Run) {
    && |base.aggregates| == |candidate.aggregates| > 0
    && (forall i | 0 <= i < |base.aggregates| :: base.aggregates[i].taskName == candidate.aggregates[i].taskName)
    && (forall i, j | 0 <= i < j < |base.aggregates| :: base.aggregates[i].taskName != base.aggregates[j].taskName)
    && Sort(Names(base.aggregates), StringLeq) == Names(base.aggregates)
  }

  lemma ValidRunsAlign(digest: RunDigest, base: Run, candidate: Run)
    requires RunValid(digest, base) && RunValid(digest, candidate) && base.contract.suite == candidate.contract.suite
    ensures Aligned(base, candidate) && |base.aggregates| == |candidate.contract.suite.tasks|
  {
    SameTaskNames(digest, base, candidate);
    AggregatesAreSorted(digest, base);
  }

  lemma DeltaOfTask(base: Run, candidate: Run, i: nat)
    requires Aligned(base, candidate) && i < |base.aggregates|
    ensures ScoreAt(base.aggregates, base.aggregates[i].taskName) == base.aggregates[i].score
    ensures ScoreAt(candidate.aggregates, base.aggregates[i].taskName) == candidate.aggregates[i].score
  {
    LookupHits(base.aggregates, i);
    LookupHits(candidate.aggregates, i);
  }

  /** The gate's deltas are the deltas the longitudinal report lists for the same run. */
  lemma DeltasMatchReport(base: Run, candidate: Run)
    requires Aligned(base, candidate)
    ensures |ChampionDeltas(base, candidate)| == |RunDeltas(base, candidate)| == |base.aggregates|
    ensures forall i | 0 <= i < |base.aggregates| ::
              ChampionDeltas(base, candidate)[i]
              == ChampionDelta(base.aggregates[i].taskName, base.aggregates[i].score, candidate.aggregates[i].score,
                               candidate.aggregates[i].score - base.aggregates[i].score)
    ensures Changes(ChampionDeltas(base, candidate)) == Values(RunDeltas(base, candidate))
  {
    var deltas, listed := ChampionDeltas(base, candidate), RunDeltas(base, candidate);
    assert |deltas| == |Names(base.aggregates)| == |base.aggregates|;
    forall i | 0 <= i < |base.aggregates|
      ensures deltas[i] == ChampionDelta(base.aggregates[i].taskName, base.aggregates[i].score, candidate.aggregates[i].score,
                                         candidate.aggregates[i].score - base.aggregates[i].score)
      ensures deltas[i].delta == listed[i].delta
    {
      assert Names(base.aggregates)[i] == base.aggregates[i].taskName;
      DeltaOfTask(base, candidate, i);
    }
  }

  lemma {:induction false} GroupIsValid(trials: seq<Trial>, name: string)
    requires forall i | 0 <= i < |trials| :: TrialValid(trials[i])
    ensures forall i | 0 <= i < |TrialsOf(trials, name)| :: TrialValid(TrialsOf(trials, name)[i])
  {
    if trials != [] {
      GroupIsValid(trials[..|trials| - 1], name);
    }
  }

  lemma TaskScoresInRange(digest: RunDigest, run: Run, i: nat)
    requires RunValid(digest, run) && i < |run.aggregates|
    ensures 0.0 <= run.aggregates[i].score <= 1.0
  {
    var task := SortedTasks(run.contract.suite.tasks)[i];
    TasksHaveTrials(run);
    GroupIsValid(run.trials, task.name);
    SumsStayInRange(TrialsOf(run.trials, task.name));
  }

  // ---------------------------------------------------------------- no check of the record can fail

  lemma AssessmentExists(ad: AssessmentDigest, base: Run, candidate: Run, hard: seq<string>, insufficient: seq<string>)
    requires Aligned(base, candidate)
    ensures AssessRound(ad, base, candidate, hard, insufficient).Ok?
  {
    DeltasMatchReport(base, candidate);
    assert Names(base.aggregates) == Names(candidate.aggregates);
  }

  lemma FractionInUnit(part: nat, whole: nat)
    requires part <= whole && whole > 0
    ensures 0.0 <= part as real / whole as real <= 1.0
  {
    QuotientInUnit(part as real, whole as real);
  }

  lemma DerivedOutcomes(ad: AssessmentDigest, base: Run, candidate: Run, hard: seq<string>, insufficient: seq<string>)
    requires AssessRound(ad, base, candidate, hard, insufficient).Ok?
    ensures var a := AssessRound(ad, base, candidate, hard, insufficient).value;
            a.taskDeltas == ChampionDeltas(base, candidate) != [] && OutcomesDerived(a)
  {
    var changes := Changes(ChampionDeltas(base, candidate));
    CountsDisjoint(changes);
    FractionInUnit(CountBelow(changes), |changes|);
  }

  lemma VerdictFits(hard: seq<string>, insufficient: seq<string>)
    ensures var (status, reasons) := Verdict(hard, insufficient);
            Distinct(reasons) && (status.Eligible? <==> reasons == [])
  {
    OnceIsDistinct(hard + insufficient);
    OnceIsDistinct(insufficient);
  }

  lemma TaskDeltasInRange(base: Run, candidate: Run)
    requires Aligned(base, candidate)
    requires forall i | 0 <= i < |base.aggregates| :: 0.0 <= base.aggregates[i].score <= 1.0 && 0.0 <= candidate.aggregates[i].score <= 1.0
    ensures forall i | 0 <= i < |ChampionDeltas(base, candidate)| ::
              var t := ChampionDeltas(base, candidate)[i];
              0.0 <= t.baseline <= 1.0 && 0.0 <= t.candidate <= 1.0 && t.delta == t.candidate - t.baseline
  {
    DeltasMatchReport(base, candidate);
  }

  lemma RecordIsValid(ad: AssessmentDigest, base: Run, candidate: Run, hard: seq<string>, insufficient: seq<string>)
    requires AssessRound(ad, base, candidate, hard, insufficient).Ok?
    requires Round(candidate) >= 1 && 0.0 <= candidate.score <= 1.0
    requires forall i | 0 <= i < |ChampionDeltas(base, candidate)| ::
               var t := ChampionDeltas(base, candidate)[i];
               0.0 <= t.baseline <= 1.0 && 0.0 <= t.candidate <= 1.0 && t.delta == t.candidate - t.baseline
    ensures AssessmentValid(ad, AssessRound(ad, base, candidate, hard, insufficient).value)
  {
    DerivedOutcomes(ad, base, candidate, hard, insufficient);
    VerdictFits(hard, insufficient);
    var a := AssessRound(ad, base, candidate, hard, insufficient).value;
    assert a.(hash := "") == a.(hash := "").(hash := "");
  }

  lemma AllScoresInRange(digest: RunDigest, run: Run)
    requires RunValid(digest, run)
    ensures forall i | 0 <= i < |run.aggregates| :: 0.0 <= run.aggregates[i].score <= 1.0
    ensures 0.0 <= run.score <= 1.0
  {
    forall i | 0 <= i < |run.aggregates| ensures 0.0 <= run.aggregates[i].score <= 1.0 {
      TaskScoresInRange(digest, run, i);
    }
  }

  /**
   * For all validated runs of one suite, whatever the gates say, assessing an
   * evolved round yields a record, and no check of that record's validator
   * can fail.
   */
  lemma AssessmentPassesValidation(digest: RunDigest, ad: AssessmentDigest, base: Run, candidate: Run,
                                   hard: seq<string>, insufficient: seq<string>)
    requires RunValid(digest, base) && RunValid(digest, candidate) && base.contract.suite == candidate.contract.suite
    requires Round(candidate) >= 1
    ensures AssessRound(ad, base, candidate, hard, insufficient).Ok?
    ensures AssessmentValid(ad, AssessRound(ad, base, candidate, hard, insufficient).value)
  {
    ValidRunsAlign(digest, base, candidate);
    AllScoresInRange(digest, base);
    AllScoresInRange(digest, candidate);
    AssessmentExists(ad, base, candidate, hard, insufficient);
    TaskDeltasInRange(base, candidate);
    RecordIsValid(ad, base, candidate, hard, insufficient);
  }
}
