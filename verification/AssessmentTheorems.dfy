/** The promotion gate's assessments against the report and the package they are derived from. */
module AssessmentTheorems {
  import opened Prelude
  import opened Ordering
  import opened BenchmarkModels
  import opened BenchmarkComparison
  import opened ComparisonTheorems
  import opened ComparisonPackage
  import opened PackageTheorems
  import opened RoundAssessment
  import opened ComparisonOutcomes

  /**
   * The assessment of the final round and the longitudinal report describe
   * the same outcome: equal deltas, counts and error rate change. The
   * report's gain is a difference of scores and the assessment's a mean of
   * task deltas, so they differ by the drift of the two stored scores: never
   * more than twice the tolerance, and at most once exactly when the drifts
   * agree within it.
   */
  ghost predicate AgreesWithReport(base: Run, final: Run, report: LongitudinalReport, a: Assessment) {
    && base.trials != [] && final.trials != []
    && a.round == report.finalRound && a.errorRateDelta == report.errorRateDelta
    && Changes(a.taskDeltas) == Values(DeltasOfRound(report.taskDeltas, report.finalRound))
    && a.improved == report.improved && a.regressed == report.regressed && a.tied == report.tied
    && a.improved + a.regressed + a.tied == |final.contract.suite.tasks|
    && report.finalGain - a.gain == Drift(final) - Drift(base)
    && (Near(report.finalGain, a.gain) <==> Near(Drift(final), Drift(base)))
    && -2.0 * TOLERANCE <= report.finalGain - a.gain <= 2.0 * TOLERANCE
  }

  lemma AssessmentFigures(ad: AssessmentDigest, base: Run, candidate: Run, hard: seq<string>, insufficient: seq<string>)
    requires Aligned(base, candidate)
    ensures AssessRound(ad, base, candidate, hard, insufficient).Ok? && RunDeltas(base, candidate) != []
    ensures var a := AssessRound(ad, base, candidate, hard, insufficient).value;
            var deltas := Values(RunDeltas(base, candidate));
            && a.round == Round(candidate) && a.errorRateDelta == candidate.errorRate - base.errorRate
            && Changes(a.taskDeltas) == deltas && a.gain == Mean(deltas) && |deltas| == |base.aggregates|
            && a.improved == CountAbove(deltas) && a.regressed == CountBelow(deltas)
            && a.tied == |deltas| - a.improved - a.regressed
  {
    AssessmentExists(ad, base, candidate, hard, insufficient);
    DeltasMatchReport(base, candidate);
  }

  /** A report that carries the figures of two aligned runs agrees with their assessment. */
  lemma FiguresAgree(ad: AssessmentDigest, base: Run, final: Run, report: LongitudinalReport,
                     hard: seq<string>, insufficient: seq<string>)
    requires Aligned(base, final) && |base.aggregates| == |final.contract.suite.tasks|
    requires base.trials != [] && final.trials != [] && RunDeltas(base, final) != []
    requires var gap := (final.score - base.score) - Mean(Values(RunDeltas(base, final)));
             gap == Drift(final) - Drift(base) && -2.0 * TOLERANCE <= gap <= 2.0 * TOLERANCE
    requires DeltasOfRound(report.taskDeltas, report.finalRound) == RunDeltas(base, final)
    requires report.finalRound == Round(final) && report.errorRateDelta == final.errorRate - base.errorRate
    requires report.finalGain == final.score - base.score
    requires var deltas := Values(RunDeltas(base, final));
             && report.improved == CountAbove(deltas) && report.regressed == CountBelow(deltas)
             && report.tied == |deltas| - report.improved - report.regressed
    ensures var r := AssessRound(ad, base, final, hard, insufficient);
            r.Ok? && AgreesWithReport(base, final, report, r.value)
  {
    AssessmentFigures(ad, base, final, hard, insufficient);
  }

  lemma ReportRounds(d: Digests, ordered: seq<Run>, comparisonId: string)
    requires |ordered| >= 2
    ensures var base, final := ordered[0], ordered[|ordered| - 1];
            var report := CurveReport(d, ordered, comparisonId);
            report.finalRound == Round(final) && report.errorRateDelta == final.errorRate - base.errorRate
  {
  }

  /** For every curve of validated runs, the final round's assessment agrees with the report. */
  lemma FinalAssessmentAgreesWithReport(d: Digests, ad: AssessmentDigest, ordered: seq<Run>, comparisonId: string,
                                        hard: seq<string>, insufficient: seq<string>)
    requires |ordered| >= 2 && CurveFault(d, ordered).None?
    requires forall i | 0 <= i < |ordered| :: RunValid(d.run, ordered[i])
    ensures var base, final := ordered[0], ordered[|ordered| - 1];
            var r := AssessRound(ad, base, final, hard, insufficient);
            r.Ok? && AgreesWithReport(base, final, CurveReport(d, ordered, comparisonId), r.value)
  {
    CurveKeepsSuite(d, ordered);
    ReportFigures(d, ordered, comparisonId);
    ReportRounds(d, ordered, comparisonId);
    ValidRunsAlign(d.run, ordered[0], ordered[|ordered| - 1]);
    GainAgainstMean(d.run, ordered[0], ordered[|ordered| - 1]);
    FiguresAgree(ad, ordered[0], ordered[|ordered| - 1], CurveReport(d, ordered, comparisonId), hard, insufficient);
  }

  /** Runs looked up in the order of an accepted report stand in round order without any sorting. */
  lemma ReportOrderIsRoundOrder(d: Digests, ordered: seq<Run>, report: LongitudinalReport)
    requires Longitudinal(d, ordered, report.comparisonId) == Ok(report) && Ids(ordered) == report.runIds
    ensures ByRound(ordered) == ordered && |ordered| >= 2 && CurveFault(d, ordered).None?
    ensures report == CurveReport(d, ordered, report.comparisonId)
  {
    SortPermutes(ordered, RoundLeq);
    CurveIds(d, ordered, report.comparisonId);
    SameIdsSameOrder(ByRound(ordered), ordered);
  }

  lemma SameIdsSameOrder(a: seq<Run>, b: seq<Run>)
    requires KeysDistinct(a, RunId) && Ids(a) == Ids(b) && forall x | x in b :: x in a
    ensures a == b
  {
    KeysBound(a, RunId);
    assert |a| == |Ids(a)| == |b|;
    forall i | 0 <= i < |a| ensures a[i] == b[i] {
      assert Ids(a)[i] == Ids(b)[i];
      assert b[i] in a;
      var j :| 0 <= j < |a| && a[j] == b[i];
      assert RunId(a[j]) == RunId(a[i]);
    }
  }

  lemma RecomputedCurve(d: Digests, ordered: seq<Run>, report: LongitudinalReport)
    requires Ids(ordered) == report.runIds && Longitudinal(d, ordered, report.comparisonId) == Ok(report)
    ensures |ordered| >= 2 && CurveFault(d, ordered).None? && report == CurveReport(d, ordered, report.comparisonId)
  {
    ReportOrderIsRoundOrder(d, ordered, report);
  }

  lemma CurveRecomputes(h: Hashing, m: Manifest)
    requires Acceptable(h, m)
    ensures AllPresent(m.runs, m.longitudinal.runIds)
    ensures Longitudinal(h.digests, CurveRuns(m), m.longitudinal.comparisonId) == Ok(m.longitudinal)
  {
  }

  /** The runs of the package's curve, as the gate looks them up. */
  function CurveRuns(m: Manifest): seq<Run>
    requires AllPresent(m.runs, m.longitudinal.runIds)
  {
    Resolve(m.runs, m.longitudinal.runIds)
  }

  lemma CurveRoundIsAssessed(d: Digests, ad: AssessmentDigest, ordered: seq<Run>, comparisonId: string, k: nat,
                             hard: seq<string>, insufficient: seq<string>)
    requires |ordered| >= 2 && CurveFault(d, ordered).None? && 1 <= k < |ordered|
    requires forall i | 0 <= i < |ordered| :: RunValid(d.run, ordered[i])
    ensures var r := AssessRound(ad, ordered[0], ordered[k], hard, insufficient);
            && r.Ok? && AssessmentValid(ad, r.value) && r.value.round == k
            && Changes(r.value.taskDeltas) == Values(DeltasOfRound(CurveReport(d, ordered, comparisonId).taskDeltas, k))
  {
    CurveKeepsSuite(d, ordered);
    RoundDeltas(ordered, k);
    AssessmentPassesValidation(d.run, ad, ordered[0], ordered[k], hard, insufficient);
    ValidRunsAlign(d.run, ordered[0], ordered[k]);
    AssessmentFigures(ad, ordered[0], ordered[k], hard, insufficient);
  }

  ghost predicate AllValid(digest: RunDigest, runs: seq<Run>) {
    forall i | 0 <= i < |runs| :: RunValid(digest, runs[i])
  }

  lemma ResolvedAreValid(digest: RunDigest, runs: seq<Run>, ids: seq<string>)
    requires AllPresent(runs, ids) && AllValid(digest, runs)
    ensures AllValid(digest, Resolve(runs, ids)) && Ids(Resolve(runs, ids)) == ids
  {
    forall i | 0 <= i < |ids| ensures RunValid(digest, Resolve(runs, ids)[i]) {
      var j :| 0 <= j < |runs| && runs[j] == FindRun(runs, ids[i]).value;
    }
  }

  /** Round `k` of a curve gets a valid assessment that counts the deltas listed for it. */
  ghost predicate Assessed(ad: AssessmentDigest, ordered: seq<Run>, k: nat, listed: seq<TaskDelta>, hard: seq<string>, insufficient: seq<string>)
    requires k < |ordered|
  {
    var r := AssessRound(ad, ordered[0], ordered[k], hard, insufficient);
    && r.Ok? && AssessmentValid(ad, r.value) && r.value.round == k
    && Changes(r.value.taskDeltas) == Values(DeltasOfRound(listed, k))
  }

  lemma RecomputedRoundIsAssessed(d: Digests, ad: AssessmentDigest, ordered: seq<Run>, report: LongitudinalReport, k: nat,
                                  hard: seq<string>, insufficient: seq<string>)
    requires Ids(ordered) == report.runIds && Longitudinal(d, ordered, report.comparisonId) == Ok(report)
    requires 1 <= k < |ordered| && AllValid(d.run, ordered)
    ensures Assessed(ad, ordered, k, report.taskDeltas, hard, insufficient)
  {
    RecomputedCurve(d, ordered, report);
    CurveRoundIsAssessed(d, ad, ordered, report.comparisonId, k, hard, insufficient);
  }

  /**
   * On every accepted package of validated runs the gate can assess every
   * evolved round: the record it derives is valid, belongs to that round and
   * counts exactly the deltas the packaged report lists for it.
   */
  lemma PackagedRoundsAreAssessed(h: Hashing, m: Manifest, ad: AssessmentDigest, k: nat, hard: seq<string>, insufficient: seq<string>)
    requires Acceptable(h, m) && AllValid(h.digests.run, m.runs)
    requires 1 <= k < |m.longitudinal.runIds|
    ensures AllPresent(m.runs, m.longitudinal.runIds)
    ensures Assessed(ad, CurveRuns(m), k, m.longitudinal.taskDeltas, hard, insufficient)
  {
    CurveRecomputes(h, m);
    ResolvedAreValid(h.digests.run, m.runs, m.longitudinal.runIds);
    RecomputedRoundIsAssessed(h.digests, ad, CurveRuns(m), m.longitudinal, k, hard, insufficient);
  }

  // ---------------------------------------------------------------- what an assessment says

  /** The verdict and its reasons: any hard reason rejects, else any missing evidence holds, else the round is eligible. */
  ghost predicate VerdictTells(a: Assessment, hard: seq<string>, insufficient: seq<string>) {
    && (hard != [] ==> a.status == Status.Rejected)
    && (hard == [] && insufficient != [] ==> a.status == Status.InsufficientEvidence)
    && (hard == [] && insufficient == [] ==> a.status == Status.Eligible)
    && (forall x :: x in a.reasons <==> x in hard || x in insufficient)
  }

  lemma {:induction false} OnceKeepsMembers(reasons: seq<string>)
    ensures forall x :: x in Once(reasons) <==> x in reasons
  {
    if reasons != [] {
      var n := |reasons| - 1;
      OnceKeepsMembers(reasons[..n]);
      assert reasons == reasons[..n] + [reasons[n]];
    }
  }

  lemma VerdictIsTold(ad: AssessmentDigest, base: Run, candidate: Run, hard: seq<string>, insufficient: seq<string>)
    requires AssessRound(ad, base, candidate, hard, insufficient).Ok?
    ensures VerdictTells(AssessRound(ad, base, candidate, hard, insufficient).value, hard, insufficient)
  {
    OnceKeepsMembers(hard + insufficient);
    OnceKeepsMembers(insufficient);
  }

  /**
   * What the assessment of a round says about two validated runs of one
   * suite: whose round it is, on which tasks it beats the baseline and is
   * beaten, the share of the latter, and a gain that is the difference of the
   * scores up to the drift of the two.
   */
  lemma AssessmentOutcome(digest: RunDigest, ad: AssessmentDigest, base: Run, candidate: Run, hard: seq<string>, insufficient: seq<string>)
    requires RunValid(digest, base) && RunValid(digest, candidate) && base.contract.suite == candidate.contract.suite
    ensures AssessRound(ad, base, candidate, hard, insufficient).Ok? && base.trials != [] && candidate.trials != []
    ensures |base.aggregates| == |candidate.aggregates| > 0
    ensures var a := AssessRound(ad, base, candidate, hard, insufficient).value;
            && a.runId == candidate.id && a.snapshot == candidate.contract.agent.snapshot
            && a.round == candidate.contract.agent.round && a.score == candidate.score
            && a.improved == |Beats(candidate, base)| && a.regressed == |Beats(base, candidate)|
            && a.tied == |base.aggregates| - a.improved - a.regressed
            && a.regressionFraction == |Beats(base, candidate)| as real / |base.aggregates| as real
            && a.gain == (candidate.score - base.score) - (Drift(candidate) - Drift(base)) && a.observedMean == a.gain
            && VerdictTells(a, hard, insufficient)
  {
    ValidRunsAlign(digest, base, candidate);
    AssessmentFigures(ad, base, candidate, hard, insufficient);
    AlignedBeats(base, candidate);
    GainAgainstMean(digest, base, candidate);
    VerdictIsTold(ad, base, candidate, hard, insufficient);
    FractionOf(ad, base, candidate, hard, insufficient);
  }

  lemma AlignedBeats(base: Run, candidate: Run)
    requires Aligned(base, candidate)
    ensures var deltas := Values(RunDeltas(base, candidate));
            CountAbove(deltas) == |Beats(candidate, base)| && CountBelow(deltas) == |Beats(base, candidate)|
  {
    DeltasMatchReport(base, candidate);
    forall i | 0 <= i < |base.aggregates|
      ensures Changes(ChampionDeltas(base, candidate))[i] == candidate.aggregates[i].score - base.aggregates[i].score
    {
    }
    CountTasks(candidate, base, Changes(ChampionDeltas(base, candidate)));
  }

  lemma FractionOf(ad: AssessmentDigest, base: Run, candidate: Run, hard: seq<string>, insufficient: seq<string>)
    requires AssessRound(ad, base, candidate, hard, insufficient).Ok?
    ensures var a := AssessRound(ad, base, candidate, hard, insufficient).value;
            && a.taskDeltas != [] && a.regressionFraction == a.regressed as real / |a.taskDeltas| as real
            && a.observedMean == a.gain && a.runId == candidate.id && a.snapshot == candidate.contract.agent.snapshot
            && a.score == candidate.score && |a.taskDeltas| == |Changes(a.taskDeltas)|
  {
  }
}
