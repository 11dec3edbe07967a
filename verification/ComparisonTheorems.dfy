/** What the comparison reports mean, and that they do not depend on the order of the runs. */
module ComparisonTheorems {
  import opened Prelude
  import opened Ordering
  import opened BenchmarkModels
  import opened BenchmarkComparison
  import opened BenchmarkConservation

  // ---------------------------------------------------------------- the orders

  lemma RoundOrder()
    ensures TotalPreorder(RoundLeq)
  {
  }

  lemma IdOrder()
    ensures TotalPreorder(IdLeq)
  {
    StringLeqIsOrder();
    forall x: Run, y: Run, z: Run | IdLeq(x, y) && IdLeq(y, z) ensures IdLeq(x, z) {
      StringLeqTransitive(x.id, y.id, z.id);
    }
  }

  lemma RankOrder()
    ensures TotalPreorder(RankLeq)
    ensures forall x: Run, y: Run :: RankLeq(x, y) && RankLeq(y, x) ==> x.id == y.id
  {
    forall x: Run, y: Run ensures RankLeq(x, y) || RankLeq(y, x)
                          ensures RankLeq(x, y) && RankLeq(y, x) ==> x.id == y.id
    {
      StringLeqTotal(x.contract.agent.name, y.contract.agent.name);
      StringLeqTotal(x.id, y.id);
    }
    forall x: Run, y: Run, z: Run | RankLeq(x, y) && RankLeq(y, z) ensures RankLeq(x, z) {
      RankTransitive(x, y, z);
    }
  }

  lemma RankTransitive(x: Run, y: Run, z: Run)
    requires RankLeq(x, y) && RankLeq(y, z)
    ensures RankLeq(x, z)
  {
    var a, b, c := x.contract.agent.name, y.contract.agent.name, z.contract.agent.name;
    if x.score == y.score == z.score && x.errorRate == y.errorRate == z.errorRate {
      if a != b || b != c {
        assert StringLeq(a, b) by { StringLeqTotal(a, a); }
        assert StringLeq(b, c) by { StringLeqTotal(b, b); }
        StringLeqTransitive(a, b, c);
        StringLeqTotal(a, b);
      } else {
        StringLeqTransitive(x.id, y.id, z.id);
      }
    }
  }

  /** Distinct evidence ids leave no ties in an order whose ties share an id. */
  lemma DistinctIdsNoTies(runs: seq<Run>, leq: (Run, Run) -> bool)
    requires KeysDistinct(runs, RunId)
    requires forall x, y :: leq(x, y) && leq(y, x) ==> x.id == y.id
    ensures NoTies(leq, runs)
  {
    KeysBound(runs, RunId);
    forall x, y | x in runs && y in runs && leq(x, y) && leq(y, x) ensures x == y {
      var i :| 0 <= i < |runs| && runs[i] == x;
      var j :| 0 <= j < |runs| && runs[j] == y;
      assert RunId(runs[i]) == RunId(runs[j]);
    }
  }

  // ---------------------------------------------------------------- canonicity

  lemma ConsecutiveNoTies(runs: seq<Run>)
    requires Consecutive(ByRound(runs))
    ensures NoTies(RoundLeq, runs)
  {
    SortPermutes(runs, RoundLeq);
    var ordered := ByRound(runs);
    forall x, y | x in runs && y in runs && RoundLeq(x, y) && RoundLeq(y, x) ensures x == y {
      assert x in ordered && y in ordered;
      var i :| 0 <= i < |ordered| && ordered[i] == x;
      var j :| 0 <= j < |ordered| && ordered[j] == y;
    }
  }

  /** The longitudinal outcome, report or error alike, is the same for every order of the input runs. */
  lemma LongitudinalIsCanonical(d: Digests, runs: seq<Run>, other: seq<Run>, comparisonId: string)
    requires multiset(runs) == multiset(other)
    ensures Longitudinal(d, runs, comparisonId) == Longitudinal(d, other, comparisonId)
  {
    KeysPermute(runs, other, RunId);
    RoundOrder();
    SortPermutes(runs, RoundLeq);
    SortPermutes(other, RoundLeq);
    KeysPermute(ByRound(runs), ByRound(other), RunId);
    if Consecutive(ByRound(runs)) {
      ConsecutiveNoTies(runs);
      SortIsCanonical(runs, other, RoundLeq);
    } else if Consecutive(ByRound(other)) {
      ConsecutiveNoTies(other);
      SortIsCanonical(other, runs, RoundLeq);
    }
  }

  lemma FindIsUnique(runs: seq<Run>, other: seq<Run>, id: string)
    requires multiset(runs) == multiset(other) && KeysDistinct(runs, RunId)
    ensures FindRun(runs, id) == FindRun(other, id)
  {
    KeysPermute(runs, other, RunId);
    KeysBound(runs, RunId);
    var a, b := FindRun(runs, id), FindRun(other, id);
    assert a.Some? ==> a.value in other;
    assert b.Some? ==> b.value in runs;
    if a.Some? && b.Some? {
      var i :| 0 <= i < |runs| && runs[i] == a.value;
      var j :| 0 <= j < |runs| && runs[j] == b.value;
      assert RunId(runs[i]) == RunId(runs[j]);
    }
  }

  lemma FaultFreeIsUnordered(d: Digests, anchor: Run, runs: seq<Run>, other: seq<Run>)
    requires multiset(runs) == multiset(other) && FirstFault(d, anchor, runs).None?
    ensures FirstFault(d, anchor, other).None?
  {
    KeysPermute(runs, other, RunId);
    forall i | 0 <= i < |other| ensures RunFault(d, anchor, other[i]).None? {
      assert other[i] in runs;
      var j :| 0 <= j < |runs| && runs[j] == other[i];
    }
  }

  /**
   * A same-model comparison gives the same report for every order of the
   * input runs, or fails for every order.
   */
  lemma SameModelIsCanonical(d: Digests, runs: seq<Run>, other: seq<Run>, anchorId: string, comparisonId: string)
    requires multiset(runs) == multiset(other)
    ensures var r, o := SameModel(d, runs, anchorId, comparisonId), SameModel(d, other, anchorId, comparisonId);
            (r.Ok? <==> o.Ok?) && (r.Ok? ==> r == o)
  {
    KeysPermute(runs, other, RunId);
    KeysPermute(runs, other, AgentKey);
    if |runs| >= 2 && KeysDistinct(runs, RunId) {
      FindIsUnique(runs, other, anchorId);
      var found := FindRun(runs, anchorId);
      if found.Some? {
        if FirstFault(d, found.value, runs).None? {
          FaultFreeIsUnordered(d, found.value, runs, other);
          ReportIsCanonical(d, runs, other, found.value, comparisonId);
        } else if FirstFault(d, found.value, other).None? {
          FaultFreeIsUnordered(d, found.value, other, runs);
        }
      }
    }
  }

  lemma ReportIsCanonical(d: Digests, runs: seq<Run>, other: seq<Run>, anchor: Run, comparisonId: string)
    requires multiset(runs) == multiset(other) && KeysDistinct(runs, RunId)
    ensures CrossReportOf(d, runs, anchor, comparisonId) == CrossReportOf(d, other, anchor, comparisonId)
  {
    IdOrder();
    RankOrder();
    StringLeqIsOrder();
    DistinctIdsNoTies(runs, IdLeq);
    DistinctIdsNoTies(runs, RankLeq);
    SortIsCanonical(runs, other, IdLeq);
    SortIsCanonical(runs, other, RankLeq);
    var keep := (r: Run) => r.id != anchor.id;
    FilterPermutes(runs, other, keep);
    NoTiesInFilter(runs, keep);
    SortIsCanonical(Filter(runs, keep), Filter(other, keep), IdLeq);
  }

  lemma NoTiesInFilter(runs: seq<Run>, keep: Run -> bool)
    requires NoTies(IdLeq, runs)
    ensures NoTies(IdLeq, Filter(runs, keep))
  {
    FilterPermutes(runs, runs, keep);
  }

  // ---------------------------------------------------------------- swapping anchor and comparator

  lemma {:induction false} CountsPartition(deltas: seq<real>)
    ensures CountAbove(deltas) + CountBelow(deltas) + CountWithin(deltas) == |deltas|
  {
    if deltas != [] {
      CountsPartition(deltas[1..]);
    }
  }

  lemma {:induction false} CountsSwap(a: seq<real>, b: seq<real>)
    requires |a| == |b| && forall i | 0 <= i < |a| :: a[i] == -b[i]
    ensures CountAbove(a) == CountBelow(b) && CountWithin(a) == CountWithin(b)
  {
    if a != [] {
      assert a[0] == -b[0];
      assert forall i | 0 <= i < |a[1..]| :: a[1..][i] == -b[1..][i];
      CountsSwap(a[1..], b[1..]);
    }
  }

  lemma SameTaskNames(digest: RunDigest, a: Run, b: Run)
    requires RunValid(digest, a) && RunValid(digest, b) && a.contract.suite == b.contract.suite
    ensures |a.aggregates| == |b.aggregates| == |a.contract.suite.tasks|
    ensures forall i | 0 <= i < |a.aggregates| :: a.aggregates[i].taskName == b.aggregates[i].taskName
    ensures forall i, j | 0 <= i < j < |a.aggregates| :: a.aggregates[i].taskName != a.aggregates[j].taskName
  {
    SortedTasksCover(a);
    NamesFollowSuite(digest, a);
    NamesFollowSuite(digest, b);
  }

  lemma NamesFollowSuite(digest: RunDigest, run: Run)
    requires RunValid(digest, run)
    ensures var tasks := SortedTasks(run.contract.suite.tasks);
            && |run.aggregates| == |tasks|
            && forall i | 0 <= i < |tasks| :: run.aggregates[i].taskName == tasks[i].name
  {
    TasksHaveTrials(run);
  }

  lemma PairDeltasNegate(digest: RunDigest, a: Run, b: Run)
    requires RunValid(digest, a) && RunValid(digest, b) && a.contract.suite == b.contract.suite
    ensures |PairDeltas(a, b)| == |PairDeltas(b, a)| == |a.contract.suite.tasks|
    ensures forall i | 0 <= i < |PairDeltas(a, b)| :: PairDeltas(a, b)[i] == -PairDeltas(b, a)[i]
  {
    SameTaskNames(digest, a, b);
    assert Names(a.aggregates) == Names(b.aggregates);
    SameNamesNegate(a, b);
  }

  lemma SameNamesNegate(a: Run, b: Run)
    requires Names(a.aggregates) == Names(b.aggregates)
    ensures |PairDeltas(a, b)| == |PairDeltas(b, a)| == |a.aggregates|
    ensures forall i | 0 <= i < |PairDeltas(a, b)| :: PairDeltas(a, b)[i] == -PairDeltas(b, a)[i]
  {
    SortPermutes(Names(a.aggregates), StringLeq);
    assert |Names(a.aggregates)| == |a.aggregates|;
  }

  /** Swapping anchor and comparator swaps wins and losses and keeps ties; together they count every task once. */
  lemma CompareIsAntisymmetric(digest: RunDigest, a: Run, b: Run)
    requires RunValid(digest, a) && RunValid(digest, b) && a.contract.suite == b.contract.suite
    ensures var x, y := Compare(a, b), Compare(b, a);
            && x.wins == y.losses && x.losses == y.wins && x.ties == y.ties
            && x.wins + x.losses + x.ties == |a.contract.suite.tasks|
            && x.scoreDelta == -y.scoreDelta && x.errorRateDelta == -y.errorRateDelta
  {
    PairDeltasNegate(digest, a, b);
    CountsSwap(PairDeltas(a, b), PairDeltas(b, a));
    CountsSwap(PairDeltas(b, a), PairDeltas(a, b));
    CountsPartition(PairDeltas(a, b));
  }

  // ---------------------------------------------------------------- the curve

  /** A curve called monotonic never loses more than the tolerance per evolved round. */
  lemma {:induction false} MonotonicCurveIsBounded(ordered: seq<Run>)
    requires ordered != [] && DownwardRounds(ordered) == 0
    ensures ordered[|ordered| - 1].score >= ordered[0].score - (|ordered| - 1) as real * TOLERANCE
  {
    if |ordered| > 1 {
      MonotonicCurveIsBounded(ordered[..|ordered| - 1]);
    }
  }

  /** `best_round` is the earliest round with the highest score. */
  lemma {:induction false} BestIsEarliestMaximum(points: seq<Point>)
    requires points != [] && forall i | 0 <= i < |points| :: points[i].round == i
    ensures forall i | 0 <= i < |points| :: points[i].score <= points[Best(points)].score
    ensures forall i | 0 <= i < Best(points) :: points[i].score < points[Best(points)].score
  {
    if |points| > 1 {
      BestIsEarliestMaximum(points[..|points| - 1]);
    }
  }

  lemma {:induction false} NoDeltasOfRound(base: Run, evolved: seq<Run>, round: nat)
    requires forall k | 0 <= k < |evolved| :: Round(evolved[k]) != round
    ensures DeltasOfRound(AllDeltas(base, evolved), round) == []
  {
    if evolved != [] {
      var n := |evolved| - 1;
      NoDeltasOfRound(base, evolved[..n], round);
      FilterOfConcat(AllDeltas(base, evolved[..n]), RunDeltas(base, evolved[n]), round);
      FilterUniform(RunDeltas(base, evolved[n]), Round(evolved[n]), round);
    }
  }

  lemma {:induction false} DeltasAreDifferences(base: Run, evolved: seq<Run>)
    requires forall k | 0 <= k < |evolved| :: Round(evolved[k]) >= 1
    ensures forall t | t in AllDeltas(base, evolved) :: t.delta == t.score - t.baseline && t.round >= 1
  {
    if evolved != [] {
      DeltasAreDifferences(base, evolved[..|evolved| - 1]);
    }
  }

  lemma {:induction false} FilterOfConcat(a: seq<TaskDelta>, b: seq<TaskDelta>, round: nat)
    ensures DeltasOfRound(a + b, round) == DeltasOfRound(a, round) + DeltasOfRound(b, round)
  {
    if a == [] {
      assert a + b == b;
    } else {
      assert (a + b)[1..] == a[1..] + b;
      FilterOfConcat(a[1..], b, round);
    }
  }

  lemma {:induction false} FilterUniform(deltas: seq<TaskDelta>, of: nat, round: nat)
    requires forall i | 0 <= i < |deltas| :: deltas[i].round == of
    ensures DeltasOfRound(deltas, round) == if of == round then deltas else []
  {
    if deltas != [] {
      FilterUniform(deltas[1..], of, round);
    }
  }

  lemma {:induction false} DeltasOfOneRound(base: Run, evolved: seq<Run>, k: nat)
    requires k < |evolved| && forall i | 0 <= i < |evolved| && i != k :: Round(evolved[i]) != Round(evolved[k])
    ensures DeltasOfRound(AllDeltas(base, evolved), Round(evolved[k])) == RunDeltas(base, evolved[k])
  {
    var n, round := |evolved| - 1, Round(evolved[k]);
    FilterOfConcat(AllDeltas(base, evolved[..n]), RunDeltas(base, evolved[n]), round);
    FilterUniform(RunDeltas(base, evolved[n]), Round(evolved[n]), round);
    if k < n {
      DeltasOfOneRound(base, evolved[..n], k);
    } else {
      NoDeltasOfRound(base, evolved[..n], round);
    }
  }

  /** The deltas a report lists for an evolved round are exactly those of that round's run. */
  lemma RoundDeltas(ordered: seq<Run>, k: nat)
    requires Consecutive(ordered) && 1 <= k < |ordered|
    ensures DeltasOfRound(AllDeltas(ordered[0], ordered[1..]), k) == RunDeltas(ordered[0], ordered[k])
  {
    var evolved := ordered[1..];
    assert forall i | 0 <= i < |evolved| :: Round(evolved[i]) == i + 1;
    DeltasOfOneRound(ordered[0], evolved, k - 1);
  }

  function Sum(values: seq<real>): real {
    if values == [] then 0.0 else values[0] + Sum(values[1..])
  }

  function Mean(values: seq<real>): real
    requires values != []
  {
    Sum(values) / |values| as real
  }

  lemma {:induction false} LookupHits(aggregates: seq<Aggregate>, i: nat)
    requires i < |aggregates|
    requires forall j, k | 0 <= j < k < |aggregates| :: aggregates[j].taskName != aggregates[k].taskName
    ensures ScoreAt(aggregates, aggregates[i].taskName) == aggregates[i].score
  {
    if i < |aggregates| - 1 {
      LookupHits(aggregates[..|aggregates| - 1], i);
    }
  }

  lemma {:induction false} SumOfDifferences(a: seq<Aggregate>, b: seq<Aggregate>, deltas: seq<real>)
    requires |a| == |b| == |deltas| && forall i | 0 <= i < |a| :: deltas[i] == a[i].score - b[i].score
    ensures Sum(deltas) == SumScores(a) - SumScores(b)
  {
    if a != [] {
      assert forall i | 0 <= i < |a[1..]| :: deltas[1..][i] == a[1..][i].score - b[1..][i].score;
      SumOfDifferences(a[1..], b[1..], deltas[1..]);
    }
  }

  /** How far a run's stored score is from the mean of its trials. */
  function Drift(run: Run): real
    requires run.trials != []
  {
    run.score - MeanReward(run.trials)
  }

  lemma SumOfRunDeltas(digest: RunDigest, base: Run, final: Run)
    requires RunValid(digest, base) && RunValid(digest, final) && base.contract.suite == final.contract.suite
    ensures |RunDeltas(base, final)| == |final.aggregates| == |base.aggregates| == |final.contract.suite.tasks|
    ensures Sum(Values(RunDeltas(base, final))) == SumScores(final.aggregates) - SumScores(base.aggregates)
  {
    SameTaskNames(digest, base, final);
    var deltas := Values(RunDeltas(base, final));
    forall i | 0 <= i < |deltas| ensures deltas[i] == final.aggregates[i].score - base.aggregates[i].score {
      LookupHits(base.aggregates, i);
    }
    SumOfDifferences(final.aggregates, base.aggregates, deltas);
  }

  lemma MeanDeltaIsMeanDifference(digest: RunDigest, base: Run, final: Run)
    requires RunValid(digest, base) && RunValid(digest, final) && base.contract.suite == final.contract.suite
    ensures RunDeltas(base, final) != [] && base.trials != [] && final.trials != []
    ensures Mean(Values(RunDeltas(base, final))) == MeanReward(final.trials) - MeanReward(base.trials)
  {
    TaskMeanIsTrialMean(digest, base);
    TaskMeanIsTrialMean(digest, final);
    SumOfRunDeltas(digest, base, final);
    MeanFromSum(Values(RunDeltas(base, final)), SumScores(final.aggregates), SumScores(base.aggregates));
  }

  lemma MeanFromSum(values: seq<real>, a: real, b: real)
    requires values != [] && Sum(values) == a - b
    ensures Mean(values) == a / |values| as real - b / |values| as real
  {
    QuotientOfDifference(a, b, |values| as real);
  }

  lemma QuotientOfDifference(a: real, b: real, n: real)
    requires n > 0.0
    ensures (a - b) / n == a / n - b / n
  {
  }

  lemma ReportFigures(d: Digests, ordered: seq<Run>, comparisonId: string)
    requires |ordered| >= 2 && Consecutive(ordered)
    ensures var base, final := ordered[0], ordered[|ordered| - 1];
            var report := CurveReport(d, ordered, comparisonId);
            var deltas := Values(RunDeltas(base, final));
            && DeltasOfRound(report.taskDeltas, report.finalRound) == RunDeltas(base, final)
            && report.finalGain == final.score - base.score
            && report.improved == CountAbove(deltas) && report.regressed == CountBelow(deltas)
            && report.tied == |deltas| - report.improved - report.regressed
  {
    RoundDeltas(ordered, |ordered| - 1);
  }

  /** The gap between the gain in score and the mean task delta is the gap between the two drifts. */
  lemma GainAgainstMean(digest: RunDigest, base: Run, final: Run)
    requires RunValid(digest, base) && RunValid(digest, final) && base.contract.suite == final.contract.suite
    ensures base.trials != [] && final.trials != [] && RunDeltas(base, final) != []
    ensures var gap := (final.score - base.score) - Mean(Values(RunDeltas(base, final)));
            gap == Drift(final) - Drift(base) && -2.0 * TOLERANCE <= gap <= 2.0 * TOLERANCE
  {
    MeanDeltaIsMeanDifference(digest, base, final);
    ScoresNearMeans(digest, base);
    ScoresNearMeans(digest, final);
    DriftArithmetic(final.score, MeanReward(final.trials), base.score, MeanReward(base.trials));
  }

  lemma CurveKeepsSuite(d: Digests, ordered: seq<Run>)
    requires ordered != [] && CurveFault(d, ordered).None?
    ensures Consecutive(ordered)
    ensures forall k | 0 <= k < |ordered| :: ordered[k].contract.suite == ordered[0].contract.suite
  {
  }

  lemma ScoresNearMeans(digest: RunDigest, run: Run)
    requires RunValid(digest, run)
    ensures run.trials != [] && Near(run.score, MeanReward(run.trials))
  {
    TasksHaveTrials(run);
  }

  lemma DriftArithmetic(f: real, mf: real, b: real, mb: real)
    requires Near(f, mf) && Near(b, mb)
    ensures (f - b) - (mf - mb) == (f - mf) - (b - mb)
    ensures -2.0 * TOLERANCE <= (f - b) - (mf - mb) <= 2.0 * TOLERANCE
  {
  }

  lemma {:induction false} CountsDisjoint(deltas: seq<real>)
    ensures CountAbove(deltas) + CountBelow(deltas) <= |deltas|
  {
    CountsPartition(deltas);
  }

  /** A report built from runs that pass the comparator's checks always passes the report's own validator. */
  lemma CurveReportPassesValidation(d: Digests, ordered: seq<Run>, comparisonId: string)
    requires |ordered| >= 2 && CurveFault(d, ordered).None?
    ensures CurveReportValid(d, CurveReport(d, ordered, comparisonId))
  {
    var evolved := ordered[1..];
    var report := CurveReport(d, ordered, comparisonId);
    assert forall i | 0 <= i < |evolved| :: Round(evolved[i]) == i + 1;
    DeltasAreDifferences(ordered[0], evolved);
    CountsDisjoint(Values(DeltasOfRound(report.taskDeltas, report.finalRound)));
    forall i | 0 <= i < |report.taskDeltas|
      ensures report.taskDeltas[i].delta == report.taskDeltas[i].score - report.taskDeltas[i].baseline
      ensures report.taskDeltas[i].round >= 1
    {
      assert report.taskDeltas[i] in AllDeltas(ordered[0], evolved);
    }
  }
}
