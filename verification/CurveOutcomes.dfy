/** What a longitudinal report says about the runs it was computed from, and when there is one. */
module CurveOutcomes {
  import opened Prelude
  import opened Ordering
  import opened BenchmarkModels
  import opened BenchmarkComparison
  import opened ComparisonTheorems
  import opened RoundAssessment
  import opened ComparisonOutcomes

  // ---------------------------------------------------------------- rounds

  /** The rounds of the runs are 0 to n - 1, each once, in whatever order the runs come. */
  ghost predicate RoundsCount(runs: seq<Run>) {
    && (forall i | 0 <= i < |runs| :: Round(runs[i]) < |runs|)
    && (forall i, j | 0 <= i < j < |runs| :: Round(runs[i]) != Round(runs[j]))
  }

  ghost predicate Climbing(runs: seq<Run>) {
    forall i, j | 0 <= i < j < |runs| :: Round(runs[i]) < Round(runs[j])
  }

  lemma {:induction false} ClimbingIsBounded(runs: seq<Run>, i: nat)
    requires Climbing(runs) && i < |runs| && forall k | 0 <= k < |runs| :: Round(runs[k]) < |runs|
    ensures i <= Round(runs[i])
  {
    if i > 0 {
      ClimbingIsBounded(runs, i - 1);
    }
  }

  lemma {:induction false} ClimbingFromTop(runs: seq<Run>, i: nat)
    requires Climbing(runs) && i < |runs| && forall k | 0 <= k < |runs| :: Round(runs[k]) < |runs|
    ensures Round(runs[i]) <= i
    decreases |runs| - i
  {
    if i < |runs| - 1 {
      ClimbingFromTop(runs, i + 1);
    }
  }

  lemma RoundsPermute(runs: seq<Run>, ordered: seq<Run>)
    requires multiset(runs) == multiset(ordered)
    ensures RoundsCount(runs) <==> RoundsCount(ordered)
  {
    KeysPermute(runs, ordered, Round);
    KeysBound(runs, Round);
    KeysBound(ordered, Round);
    forall i | 0 <= i < |runs| ensures runs[i] in ordered {
    }
    forall i | 0 <= i < |ordered| ensures ordered[i] in runs {
    }
  }

  lemma SortedRoundsCount(runs: seq<Run>)
    ensures RoundsCount(runs) <==> Consecutive(ByRound(runs))
  {
    var ordered := ByRound(runs);
    RoundOrder();
    SortPermutes(runs, RoundLeq);
    SortSorts(runs, RoundLeq);
    RoundsPermute(runs, ordered);
    if RoundsCount(ordered) {
      forall i, j | 0 <= i < j < |ordered| ensures Round(ordered[i]) < Round(ordered[j]) {
        assert RoundLeq(ordered[i], ordered[j]);
      }
      forall i | 0 <= i < |ordered| ensures Round(ordered[i]) == i {
        ClimbingIsBounded(ordered, i);
        ClimbingFromTop(ordered, i);
      }
    }
  }

  // ---------------------------------------------------------------- when there is a report

  /** What is wrong with runs that get this error. */
  ghost predicate Violates(d: Digests, runs: seq<Run>, e: CompareError) {
    match e
    case TooFewRuns => |runs| < 2
    case DuplicateRunIds => Repeats(runs)
    case RoundsNotConsecutive => !RoundsCount(runs)
    case NotBaseline => exists x :: x in runs && Round(x) == 0 && x.contract.role != Baseline
    case NotEvolved => exists x :: x in runs && Round(x) > 0 && x.contract.role != Evolved
    case ManyFamilies => exists x, y | x in runs && y in runs :: x.contract.agent.family != y.contract.agent.family
    case ParentChainBroken => exists x, y | x in runs && y in runs ::
      Round(y) == Round(x) + 1 && y.contract.agent.parent != Some(x.contract.agent.snapshot)
    case FrozenContractChanged => exists x, y | x in runs && y in runs :: d.frozen(Frozen(x.contract)) != d.frozen(Frozen(y.contract))
    case ModelOrSuiteChanged => exists x, y | x in runs && y in runs ::
      x.contract.model != y.contract.model || x.contract.suite != y.contract.suite
    case _ => false
  }

  ghost predicate Flawless(d: Digests, runs: seq<Run>) {
    forall e :: !Violates(d, runs, e)
  }

  predicate ParentBroken(ordered: seq<Run>, i: nat, j: nat)
    requires i < |ordered| && j < |ordered|
  {
    j == i + 1 && ordered[j].contract.agent.parent != Some(ordered[i].contract.agent.snapshot)
  }

  /** The same, position by position, for runs that stand in round order. */
  ghost predicate ViolatesInOrder(d: Digests, ordered: seq<Run>, e: CompareError)
    requires ordered != []
  {
    var base := ordered[0];
    match e
    case DuplicateRunIds => !KeysDistinct(ordered, RunId)
    case RoundsNotConsecutive => !Consecutive(ordered)
    case NotBaseline => base.contract.role != Baseline
    case NotEvolved => exists i | 1 <= i < |ordered| :: ordered[i].contract.role != Evolved
    case ManyFamilies => exists i | 0 <= i < |ordered| :: ordered[i].contract.agent.family != base.contract.agent.family
    case ParentChainBroken => exists i, j | 0 <= i < |ordered| && 0 <= j < |ordered| ::
      ParentBroken(ordered, i, j)
    case FrozenContractChanged => exists i | 0 <= i < |ordered| :: FrozenHash(d, ordered[i]) != FrozenHash(d, base)
    case ModelOrSuiteChanged => exists i | 0 <= i < |ordered| ::
      ordered[i].contract.model != base.contract.model || ordered[i].contract.suite != base.contract.suite
    case _ => false
  }

  lemma BrokenChainInOrder(d: Digests, ordered: seq<Run>)
    requires ordered != [] && CurveFault(d, ordered) == Some(ParentChainBroken)
    ensures ViolatesInOrder(d, ordered, ParentChainBroken) && Consecutive(ordered)
  {
    var j :| 1 <= j < |ordered| && ordered[j].contract.agent.parent != Some(ordered[j - 1].contract.agent.snapshot);
    assert ParentBroken(ordered, j - 1, j);
  }

  lemma FaultInOrder(d: Digests, ordered: seq<Run>)
    requires ordered != [] && CurveFault(d, ordered).Some?
    ensures var e := CurveFault(d, ordered).value;
            && ViolatesInOrder(d, ordered, e)
            && (Consecutive(ordered) || e == DuplicateRunIds || e == RoundsNotConsecutive)
  {
    if CurveFault(d, ordered) == Some(ParentChainBroken) {
      BrokenChainInOrder(d, ordered);
    }
  }

  lemma NoFaultInOrder(d: Digests, ordered: seq<Run>)
    requires ordered != [] && CurveFault(d, ordered).None?
    ensures Consecutive(ordered) && forall e :: !ViolatesInOrder(d, ordered, e)
  {
  }

  lemma ViolatedInOrder(d: Digests, ordered: seq<Run>, e: CompareError)
    requires ordered != [] && ViolatesInOrder(d, ordered, e)
    requires e == DuplicateRunIds || e == RoundsNotConsecutive || Consecutive(ordered)
    requires !Consecutive(ordered) ==> !RoundsCount(ordered)
    ensures Violates(d, ordered, e)
  {
    assert forall i | 0 <= i < |ordered| :: ordered[i] in ordered;
    if e == DuplicateRunIds {
      AgentsDistinct(ordered);
    } else if e == ParentChainBroken {
      var i, j :| 0 <= i < |ordered| && 0 <= j < |ordered| && ParentBroken(ordered, i, j);
      assert Round(ordered[j]) == Round(ordered[i]) + 1;
    }
  }

  lemma BrokenParentHasPosition(ordered: seq<Run>, x: Run, y: Run) returns (i: nat)
    requires Consecutive(ordered) && x in ordered && y in ordered && Round(y) == Round(x) + 1
    requires y.contract.agent.parent != Some(x.contract.agent.snapshot)
    ensures i + 1 < |ordered| && ParentBroken(ordered, i, i + 1)
  {
    i :| 0 <= i < |ordered| && ordered[i] == x;
    var j :| 0 <= j < |ordered| && ordered[j] == y;
    assert Round(ordered[i]) == i && Round(ordered[j]) == j;
  }

  lemma ViolationHasPosition(d: Digests, ordered: seq<Run>, e: CompareError)
    requires |ordered| >= 2 && Consecutive(ordered) && Violates(d, ordered, e)
    ensures ViolatesInOrder(d, ordered, e)
  {
    match e
    case DuplicateRunIds => AgentsDistinct(ordered);
    case RoundsNotConsecutive =>
    case NotBaseline => RoleHasPosition(d, ordered, e);
    case NotEvolved => RoleHasPosition(d, ordered, e);
    case ParentChainBroken =>
      var x, y :| x in ordered && y in ordered && Round(y) == Round(x) + 1
                  && y.contract.agent.parent != Some(x.contract.agent.snapshot);
      var i := BrokenParentHasPosition(ordered, x, y);
    case _ => DifferenceHasPosition(d, ordered, e);
  }

  lemma RoleHasPosition(d: Digests, ordered: seq<Run>, e: CompareError)
    requires ordered != [] && Consecutive(ordered) && Violates(d, ordered, e) && (e == NotBaseline || e == NotEvolved)
    ensures ViolatesInOrder(d, ordered, e)
  {
    if e == NotBaseline {
      var x :| x in ordered && Round(x) == 0 && x.contract.role != Baseline;
      var i :| 0 <= i < |ordered| && ordered[i] == x;
      assert Round(ordered[i]) == i;
    } else {
      var x :| x in ordered && Round(x) > 0 && x.contract.role != Evolved;
      var i :| 0 <= i < |ordered| && ordered[i] == x;
      assert Round(ordered[i]) == i;
    }
  }

  lemma DifferenceHasPosition(d: Digests, ordered: seq<Run>, e: CompareError)
    requires ordered != [] && Violates(d, ordered, e)
    requires e == ManyFamilies || e == FrozenContractChanged || e == ModelOrSuiteChanged
    ensures ViolatesInOrder(d, ordered, e)
  {
  }

  lemma RepeatsPermute(runs: seq<Run>, ordered: seq<Run>)
    requires multiset(runs) == multiset(ordered)
    ensures Repeats(ordered) <==> Repeats(runs)
  {
    KeysPermute(runs, ordered, RunId);
    AgentsDistinct(runs);
    AgentsDistinct(ordered);
  }

  lemma SameRunsSameViolations(d: Digests, runs: seq<Run>, ordered: seq<Run>, e: CompareError)
    requires |runs| == |ordered| && forall x :: x in runs <==> x in ordered
    requires (Repeats(ordered) <==> Repeats(runs)) && (RoundsCount(ordered) <==> RoundsCount(runs))
    ensures Violates(d, ordered, e) ==> Violates(d, runs, e)
  {
  }

  lemma ViolationsPermute(d: Digests, runs: seq<Run>, ordered: seq<Run>, e: CompareError)
    requires multiset(runs) == multiset(ordered)
    ensures Violates(d, ordered, e) <==> Violates(d, runs, e)
  {
    KeysPermute(runs, ordered, RunId);
    RepeatsPermute(runs, ordered);
    RoundsPermute(runs, ordered);
    SameRunsSameViolations(d, runs, ordered, e);
    SameRunsSameViolations(d, ordered, runs, e);
  }

  /** There is a report exactly when the runs violate nothing, in whatever order they come, and an error names a violation. */
  lemma LongitudinalAcceptsExactlyWhen(d: Digests, runs: seq<Run>, comparisonId: string)
    ensures var r := Longitudinal(d, runs, comparisonId);
            && (r.Ok? <==> Flawless(d, runs))
            && (r.Err? ==> Violates(d, runs, r.error))
  {
    if |runs| >= 2 {
      var ordered := ByRound(runs);
      SortPermutes(runs, RoundLeq);
      SortedRoundsCount(runs);
      RoundsPermute(runs, ordered);
      forall e ensures Violates(d, ordered, e) <==> Violates(d, runs, e) {
        ViolationsPermute(d, runs, ordered, e);
      }
      if CurveFault(d, ordered).Some? {
        FaultInOrder(d, ordered);
        ViolatedInOrder(d, ordered, CurveFault(d, ordered).value);
      } else {
        NoFaultInOrder(d, ordered);
        forall e ensures !Violates(d, ordered, e) {
          if Violates(d, ordered, e) {
            ViolationHasPosition(d, ordered, e);
          }
        }
      }
    } else {
      assert Violates(d, runs, TooFewRuns);
    }
  }

  // ---------------------------------------------------------------- what the report says

  /** `ordered` lists the runs by round, and the report was computed from that list. */
  ghost predicate InOrder(d: Digests, runs: seq<Run>, ordered: seq<Run>, report: LongitudinalReport) {
    && multiset(ordered) == multiset(runs) && |ordered| >= 2 && CurveFault(d, ordered).None?
    && (forall k | 0 <= k < |ordered| :: Round(ordered[k]) == k)
    && report == CurveReport(d, ordered, report.comparisonId)
  }

  lemma CurveInOrder(d: Digests, runs: seq<Run>, comparisonId: string) returns (ordered: seq<Run>)
    requires Longitudinal(d, runs, comparisonId).Ok?
    ensures InOrder(d, runs, ordered, Longitudinal(d, runs, comparisonId).value)
    ensures Longitudinal(d, runs, comparisonId).value.comparisonId == comparisonId
  {
    ordered := ByRound(runs);
    SortPermutes(runs, RoundLeq);
  }

  lemma BestRunOf(ordered: seq<Run>) returns (best: nat)
    requires ordered != [] && forall k | 0 <= k < |ordered| :: Round(ordered[k]) == k
    ensures best < |ordered| && Points(ordered)[Best(Points(ordered))].round == best
    ensures forall k | 0 <= k < |ordered| :: ordered[k].score <= ordered[best].score
    ensures forall k | 0 <= k < best :: ordered[k].score < ordered[best].score
  {
    var points := Points(ordered);
    assert forall k | 0 <= k < |points| :: points[k].round == k && points[k].score == ordered[k].score;
    BestIsEarliestMaximum(points);
    best := Best(points);
  }

  /** The report's best round is the earliest round whose run no other run outscores. */
  lemma BestRoundOutcome(d: Digests, runs: seq<Run>, comparisonId: string) returns (best: Run)
    requires Longitudinal(d, runs, comparisonId).Ok?
    ensures best in runs && Round(best) == Longitudinal(d, runs, comparisonId).value.bestRound
    ensures forall x | x in runs :: x.score <= best.score && (Round(x) < Round(best) ==> x.score < best.score)
  {
    var ordered := CurveInOrder(d, runs, comparisonId);
    var k := BestRunOf(ordered);
    best := ordered[k];
    KeysPermute(ordered, runs, RunId);
    forall x | x in runs ensures x.score <= best.score && (Round(x) < k ==> x.score < best.score) {
      assert x in ordered;
      var i :| 0 <= i < |ordered| && ordered[i] == x;
    }
  }

  /** The rounds that score more than the tolerance below the round before. */
  function Drops(ordered: seq<Run>): set<nat> {
    set k | 1 <= k < |ordered| && DropsAt(ordered, k)
  }

  predicate DropsAt(ordered: seq<Run>, k: nat)
    requires 1 <= k < |ordered|
  {
    ordered[k].score < ordered[k - 1].score - 0.000000000001
  }

  lemma DropsOfPrefix(ordered: seq<Run>)
    requires |ordered| >= 2
    ensures var n := |ordered| - 1;
            Drops(ordered) == Drops(ordered[..n]) + if DropsAt(ordered, n) then {n} else {}
  {
    var n := |ordered| - 1;
    forall k | 1 <= k < n ensures DropsAt(ordered, k) <==> DropsAt(ordered[..n], k) {
    }
  }

  lemma {:induction false} DropsAreCounted(ordered: seq<Run>)
    ensures DownwardRounds(ordered) == |Drops(ordered)|
  {
    if |ordered| < 2 {
      assert Drops(ordered) == {};
    } else {
      var n := |ordered| - 1;
      DropsAreCounted(ordered[..n]);
      DropsOfPrefix(ordered);
      assert n !in Drops(ordered[..n]);
    }
  }

  /** The point of a round repeats the run's figures and its gain over the baseline. */
  ghost predicate PointTells(p: Point, base: Run, run: Run) {
    && p.runId == run.id && p.snapshot == run.contract.agent.snapshot && p.round == run.contract.agent.round
    && p.score == run.score && p.gain == run.score - base.score && p.errorRate == run.errorRate
    && p.inputTokens == run.inputTokens && p.outputTokens == run.outputTokens && p.cost == run.cost
  }

  ghost predicate PointsTell(ordered: seq<Run>, r: LongitudinalReport)
    requires ordered != []
  {
    && |r.runIds| == |r.points| == |ordered|
    && forall k | 0 <= k < |ordered| :: r.runIds[k] == ordered[k].id && PointTells(r.points[k], ordered[0], ordered[k])
  }

  ghost predicate HeaderTells(d: Digests, base: Run, r: LongitudinalReport) {
    && r.family == base.contract.agent.family && r.modelHash == base.contract.model.hash
    && r.suiteHash == base.contract.suite.hash && r.frozenHash == d.frozen(Frozen(base.contract))
    && r.hash == d.longitudinal(r.(hash := ""))
  }

  /** Last run against first. */
  ghost predicate ChangeTells(base: Run, final: Run, r: LongitudinalReport) {
    && r.finalRound == Round(final) && r.baselineScore == base.score && r.finalScore == final.score
    && r.finalGain == final.score - base.score && r.errorRateDelta == final.errorRate - base.errorRate
    && IntGap(r.inputDelta, final.inputTokens, base.inputTokens)
    && IntGap(r.outputDelta, final.outputTokens, base.outputTokens)
    && RealGap(r.costDelta, final.cost, base.cost)
  }

  /** The report in terms of the runs in round order: header, points, drops, and last run against first. */
  ghost predicate CurveTells(d: Digests, ordered: seq<Run>, r: LongitudinalReport)
    requires |ordered| >= 2
  {
    && HeaderTells(d, ordered[0], r) && PointsTell(ordered, r)
    && ChangeTells(ordered[0], ordered[|ordered| - 1], r)
    && r.downwardRounds == |Drops(ordered)| && (r.monotonic <==> Drops(ordered) == {})
  }

  lemma ReportPointsTell(d: Digests, ordered: seq<Run>, comparisonId: string)
    requires ordered != []
    ensures PointsTell(ordered, CurveReport(d, ordered, comparisonId))
  {
  }

  lemma ReportHeaderTells(d: Digests, ordered: seq<Run>, comparisonId: string)
    requires ordered != []
    ensures HeaderTells(d, ordered[0], CurveReport(d, ordered, comparisonId))
  {
    var r := CurveReport(d, ordered, comparisonId);
    assert r.(hash := "") == r.(hash := "").(hash := "");
  }

  lemma GapsTell(base: Run, final: Run)
    ensures IntGap(IntDelta(final.inputTokens, base.inputTokens), final.inputTokens, base.inputTokens)
    ensures IntGap(IntDelta(final.outputTokens, base.outputTokens), final.outputTokens, base.outputTokens)
    ensures RealGap(RealDelta(final.cost, base.cost), final.cost, base.cost)
  {
  }

  lemma ReportChangeTells(d: Digests, ordered: seq<Run>, comparisonId: string)
    requires ordered != []
    ensures ChangeTells(ordered[0], ordered[|ordered| - 1], CurveReport(d, ordered, comparisonId))
  {
    GapsTell(ordered[0], ordered[|ordered| - 1]);
  }

  lemma ReportDropsTell(d: Digests, ordered: seq<Run>, comparisonId: string)
    requires ordered != []
    ensures var r := CurveReport(d, ordered, comparisonId);
            r.downwardRounds == |Drops(ordered)| && (r.monotonic <==> |Drops(ordered)| == 0)
  {
    DropsAreCounted(ordered);
  }

  /** Every accepted report tells exactly this about its runs. */
  lemma CurveOutcome(d: Digests, runs: seq<Run>, comparisonId: string) returns (ordered: seq<Run>)
    requires Longitudinal(d, runs, comparisonId).Ok?
    ensures multiset(ordered) == multiset(runs) && |ordered| >= 2 && forall k | 0 <= k < |ordered| :: Round(ordered[k]) == k
    ensures CurveTells(d, ordered, Longitudinal(d, runs, comparisonId).value)
    ensures Longitudinal(d, runs, comparisonId).value.comparisonId == comparisonId
  {
    ordered := CurveInOrder(d, runs, comparisonId);
    ReportHeaderTells(d, ordered, comparisonId);
    ReportPointsTell(d, ordered, comparisonId);
    ReportChangeTells(d, ordered, comparisonId);
    ReportDropsTell(d, ordered, comparisonId);
  }

  // ---------------------------------------------------------------- tasks

  /** The deltas listed for a round: one per task, in name order, score of the round's run less the baseline's. */
  ghost predicate DeltasTell(listed: seq<TaskDelta>, base: Run, run: Run) {
    && |listed| == |run.aggregates| == |base.aggregates|
    && forall i | 0 <= i < |listed| ::
         && base.aggregates[i].taskName == run.aggregates[i].taskName
         && listed[i] == TaskDelta(run.id, Round(run), run.aggregates[i].taskName, base.aggregates[i].score,
                                   run.aggregates[i].score, run.aggregates[i].score - base.aggregates[i].score)
  }

  lemma RunDeltasTell(base: Run, run: Run)
    requires Aligned(base, run)
    ensures DeltasTell(RunDeltas(base, run), base, run)
  {
    forall i | 0 <= i < |run.aggregates|
      ensures ScoreAt(base.aggregates, run.aggregates[i].taskName) == base.aggregates[i].score
    {
      DeltaOfTask(base, run, i);
    }
  }

  lemma FinalCounts(base: Run, final: Run)
    requires Aligned(base, final)
    ensures var deltas := Values(RunDeltas(base, final));
            && CountAbove(deltas) == |Beats(final, base)| && CountBelow(deltas) == |Beats(base, final)|
            && |deltas| == |base.aggregates|
  {
    RunDeltasTell(base, final);
    CountTasks(final, base, Values(RunDeltas(base, final)));
  }

  /**
   * The tasks of an accepted report of validated runs: every evolved round
   * lists each task once with the change against the baseline, no other
   * round is listed, and the improved, regressed and tied tasks are those on
   * which the final run beats, is beaten by, or levels with the baseline.
   */
  lemma CurveTasksOutcome(d: Digests, runs: seq<Run>, comparisonId: string) returns (ordered: seq<Run>)
    requires Longitudinal(d, runs, comparisonId).Ok? && forall run | run in runs :: RunValid(d.run, run)
    ensures multiset(ordered) == multiset(runs) && |ordered| >= 2
    ensures var r := Longitudinal(d, runs, comparisonId).value;
            var base, final := ordered[0], ordered[|ordered| - 1];
            && (forall k | 1 <= k < |ordered| :: DeltasTell(DeltasOfRound(r.taskDeltas, k), base, ordered[k]))
            && (forall t | t in r.taskDeltas :: t.round >= 1)
            && |base.aggregates| == |final.aggregates|
            && r.improved == |Beats(final, base)| && r.regressed == |Beats(base, final)|
            && r.tied == |base.aggregates| - r.improved - r.regressed
  {
    ordered := CurveInOrder(d, runs, comparisonId);
    KeysPermute(ordered, runs, RunId);
    assert forall k | 0 <= k < |ordered| :: RunValid(d.run, ordered[k]) by {
      assert forall k | 0 <= k < |ordered| :: ordered[k] in runs;
    }
    OrderedTasksOutcome(d, ordered, comparisonId);
  }

  lemma RoundTasks(d: Digests, ordered: seq<Run>, k: nat)
    requires 1 <= k < |ordered| && CurveFault(d, ordered).None?
    requires RunValid(d.run, ordered[0]) && RunValid(d.run, ordered[k])
    ensures DeltasTell(DeltasOfRound(AllDeltas(ordered[0], ordered[1..]), k), ordered[0], ordered[k])
    ensures Aligned(ordered[0], ordered[k])
  {
    CurveKeepsSuite(d, ordered);
    ValidRunsAlign(d.run, ordered[0], ordered[k]);
    RunDeltasTell(ordered[0], ordered[k]);
    RoundDeltas(ordered, k);
  }

  lemma ListedRounds(ordered: seq<Run>)
    requires |ordered| >= 2 && Consecutive(ordered)
    ensures forall t | t in AllDeltas(ordered[0], ordered[1..]) :: t.round >= 1
  {
    assert forall i | 0 <= i < |ordered[1..]| :: Round(ordered[1..][i]) == i + 1;
    DeltasAreDifferences(ordered[0], ordered[1..]);
  }

  lemma OrderedTasksOutcome(d: Digests, ordered: seq<Run>, comparisonId: string)
    requires |ordered| >= 2 && CurveFault(d, ordered).None? && forall k | 0 <= k < |ordered| :: RunValid(d.run, ordered[k])
    ensures var r := CurveReport(d, ordered, comparisonId);
            var base, final := ordered[0], ordered[|ordered| - 1];
            && (forall k | 1 <= k < |ordered| :: DeltasTell(DeltasOfRound(r.taskDeltas, k), base, ordered[k]))
            && (forall t | t in r.taskDeltas :: t.round >= 1)
            && |base.aggregates| == |final.aggregates|
            && r.improved == |Beats(final, base)| && r.regressed == |Beats(base, final)|
            && r.tied == |base.aggregates| - r.improved - r.regressed
  {
    var base, final := ordered[0], ordered[|ordered| - 1];
    forall k | 1 <= k < |ordered| ensures DeltasTell(DeltasOfRound(AllDeltas(base, ordered[1..]), k), base, ordered[k]) {
      RoundTasks(d, ordered, k);
    }
    CurveKeepsSuite(d, ordered);
    ListedRounds(ordered);
    RoundTasks(d, ordered, |ordered| - 1);
    FinalCounts(base, final);
    ReportFigures(d, ordered, comparisonId);
  }
}
