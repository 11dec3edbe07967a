/** Two validated runs whose report gain differs from their assessment gain by more than the tolerance. */
module ComparisonWitnesses {
  import opened Prelude
  import opened Ordering
  import opened BenchmarkModels
  import opened BenchmarkConservation
  import opened BenchmarkComparison
  import opened ComparisonTheorems
  import opened RoundAssessment
  import opened AssessmentTheorems

  const TASK := Task("task", "id", "sum")

  function OneTaskContract(round: nat): Contract {
    Contract(if round == 0 then Baseline else Evolved, Suite("suite", "reward", [TASK], false, "h"),
             Agent("family", "agent", "1", if round == 0 then "a0" else "a1x", round, if round == 0 then None else Some("a0")),
             Model("provider", "model", "1", "h"), "default", 1, 1.0, false, false, false, false, false, None, false, false,
             SyntheticFixture, "budget", "h")
  }

  function OneTrial(): Trial {
    Trial("trial", "task", "id", "sum", "agent", "1", "provider", "model", 0.5, None, None, None, None, None)
  }

  /** A run of one trial with reward 1/2 whose stored score is off by `drift`. */
  function DriftedRun(digest: RunDigest, round: nat, drift: real): Run {
    var run := Run(if round == 0 then "r0" else "r1x", "job", "sha", OneTaskContract(round), 0, 0, 1, 0, 0, [OneTrial()],
                   [Aggregate("task", "id", "sum", 1, 0.5, 0)], 0.5 + drift, 0.0, false, false, None, None, None, None, "");
    run.(hash := digest(run))
  }

  lemma SingletonKeys<T, K>(x: T, key: T -> K)
    ensures KeysDistinct([x], key)
  {
    KeysBound([x], key);
  }

  lemma SortSingleton<T>(x: T, leq: (T, T) -> bool)
    ensures Sort([x], leq) == [x]
  {
    assert [x][1..] == [];
  }

  lemma DriftedRunFigures()
    ensures TrialsOf([OneTrial()], "task") == [OneTrial()]
    ensures SortedTasks([TASK]) == [TASK] && FindTask([TASK], "task") == Some(TASK)
    ensures SumRewards([OneTrial()]) == 0.5 && CountErrors([OneTrial()]) == 0 && CountCancelled([OneTrial()]) == 0
  {
    assert [OneTrial()][..0] == [];
    assert [OneTrial()][0].taskName == "task";
    SortSingleton(TASK, TaskLeq);
  }

  lemma DriftedRunCovers(digest: RunDigest, round: nat, drift: real)
    ensures Covers(DriftedRun(digest, round, drift))
  {
    DriftedRunFigures();
    SingletonKeys(TASK, TaskName);
    SingletonKeys(TASK, TaskId);
    SingletonKeys(OneTrial(), TrialName);
    assert TrialFits(OneTaskContract(round), OneTrial());
  }

  lemma DriftedRunIsValid(digest: RunDigest, round: nat, drift: real)
    requires -TOLERANCE <= drift <= TOLERANCE
    ensures RunValid(digest, DriftedRun(digest, round, drift))
    ensures Drift(DriftedRun(digest, round, drift)) == drift
  {
    var run := DriftedRun(digest, round, drift);
    DriftedRunCovers(digest, round, drift);
    DriftedRunFigures();
    assert MeanReward(run.trials) == 0.5;
    DriftedAggregates();
    assert run.(hash := "") == run.(hash := "").(hash := "");
  }

  lemma DriftedAggregates()
    ensures TrialsOf([OneTrial()], TASK.name) != []
    ensures AggregatesFor([TASK], [OneTrial()]) == [Aggregate("task", "id", "sum", 1, 0.5, 0)]
  {
    DriftedRunFigures();
    assert MeanReward([OneTrial()]) == 0.5;
  }

  lemma DriftedCurveIsAccepted(d: Digests, a: Run, b: Run)
    requires a.id != b.id && a.contract == OneTaskContract(0) && b.contract == OneTaskContract(1)
    ensures CurveFault(d, [a, b]).None?
  {
    KeysBound([a, b], RunId);
    assert RunId(a) != RunId(b);
    assert Frozen(a.contract) == Frozen(b.contract);
  }

  lemma DriftsApart()
    ensures !Near(TOLERANCE, -TOLERANCE)
  {
  }

  /**
   * Validation allows each score its tolerance, so two validated runs can
   * drift apart by twice as much: the gain of a report the comparator accepts
   * and the gain of the assessment derived from the same two runs then differ
   * by more than the tolerance. The assessment itself is valid.
   */
  lemma ReportGainCanDifferFromAssessmentGain(d: Digests, ad: AssessmentDigest, hard: seq<string>, insufficient: seq<string>)
    returns (ordered: seq<Run>, a: Assessment)
    ensures |ordered| == 2 && CurveFault(d, ordered).None?
    ensures forall i | 0 <= i < |ordered| :: RunValid(d.run, ordered[i])
    ensures AssessRound(ad, ordered[0], ordered[1], hard, insufficient) == Ok(a) && AssessmentValid(ad, a)
    ensures !Near(CurveReport(d, ordered, "c").finalGain, a.gain)
  {
    var base, final := DriftedRun(d.run, 0, -TOLERANCE), DriftedRun(d.run, 1, TOLERANCE);
    DriftedRunIsValid(d.run, 0, -TOLERANCE);
    DriftedRunIsValid(d.run, 1, TOLERANCE);
    assert |"r0"| != |"r1x"|;
    DriftedCurveIsAccepted(d, base, final);
    ordered := [base, final];
    AssessmentPassesValidation(d.run, ad, base, final, hard, insufficient);
    DriftsApart();
    FinalAssessmentAgreesWithReport(d, ad, ordered, "c", hard, insufficient);
    a := AssessRound(ad, base, final, hard, insufficient).value;
  }
}
