/** Comparing validated runs: the longitudinal curve of one agent, and agents that share one model. */
module BenchmarkComparison {
  import opened Prelude
  import opened Ordering
  import opened BenchmarkModels

  datatype CompareError =
    | TooFewRuns | DuplicateRunIds | RoundsNotConsecutive | NotBaseline | NotEvolved | ManyFamilies
    | ParentChainBroken | FrozenContractChanged | ModelOrSuiteChanged
    | AnchorMissing | ModelMismatch | SuiteMismatch | FrozenSettingChanged | DuplicateAgents

  datatype Point = Point(
    runId: string, snapshot: string, round: nat, score: real, gain: real, errorRate: real,
    inputTokens: Option<nat>, outputTokens: Option<nat>, cost: Option<real>)

  datatype TaskDelta = TaskDelta(runId: string, round: nat, taskName: string, baseline: real, score: real, delta: real)

  datatype LongitudinalReport = LongitudinalReport(
    comparisonId: string, runIds: seq<string>, family: string, modelHash: string, suiteHash: string, frozenHash: string,
    points: seq<Point>, taskDeltas: seq<TaskDelta>, bestRound: nat, finalRound: nat, baselineScore: real,
    finalScore: real, finalGain: real, improved: int, regressed: int, tied: int, monotonic: bool, downwardRounds: nat,
    errorRateDelta: real, inputDelta: Option<int>, outputDelta: Option<int>, costDelta: Option<real>, hash: string)

  datatype RankRow = RankRow(
    rank: nat, runId: string, agentName: string, agentVersion: string, snapshot: string, score: real, errorRate: real,
    inputTokens: Option<nat>, outputTokens: Option<nat>, cost: Option<real>)

  datatype Pairwise = Pairwise(
    comparatorId: string, wins: nat, losses: nat, ties: nat, scoreDelta: real, errorRateDelta: real,
    inputDelta: Option<int>, outputDelta: Option<int>, costDelta: Option<real>)

  datatype CrossReport = CrossReport(
    comparisonId: string, anchorId: string, runIds: seq<string>, modelHash: string, suiteHash: string,
    frozenHash: string, ranking: seq<RankRow>, pairwise: seq<Pairwise>, hash: string)

  /** The digests the comparator uses; a report is digested with its own hash field blank. */
  datatype Digests = Digests(
    run: RunDigest, frozen: FrozenTerms -> string, longitudinal: LongitudinalReport -> string, cross: CrossReport -> string)

  function FrozenHash(d: Digests, run: Run): string { d.frozen(Frozen(run.contract)) }
  function RunId(run: Run): string { run.id }
  function Round(run: Run): nat { run.contract.agent.round }

  function IntDelta(left: Option<nat>, right: Option<nat>): Option<int> {
    if left.None? || right.None? then None else Some(left.value - right.value)
  }

  function RealDelta(left: Option<real>, right: Option<real>): Option<real> {
    if left.None? || right.None? then None else Some(left.value - right.value)
  }

  function Ids(runs: seq<Run>): seq<string> {
    seq(|runs|, i requires 0 <= i < |runs| => runs[i].id)
  }

  /** Dictionary lookup of a task score by name. */
  function ScoreOf(aggregates: seq<Aggregate>, name: string): Option<real> {
    if aggregates == [] then None
    else if aggregates[|aggregates| - 1].taskName == name then Some(aggregates[|aggregates| - 1].score)
    else ScoreOf(aggregates[..|aggregates| - 1], name)
  }

  /** `dict[name]`; validated runs of one suite never miss a name (`SameTaskNames`). */
  function ScoreAt(aggregates: seq<Aggregate>, name: string): real {
    var found := ScoreOf(aggregates, name);
    if found.Some? then found.value else 0.0
  }

  function CountAbove(deltas: seq<real>): (n: nat)
    ensures n <= |deltas|
  {
    if deltas == [] then 0 else (if deltas[0] > TOLERANCE then 1 else 0) + CountAbove(deltas[1..])
  }

  function CountBelow(deltas: seq<real>): (n: nat)
    ensures n <= |deltas|
  {
    if deltas == [] then 0 else (if deltas[0] < -TOLERANCE then 1 else 0) + CountBelow(deltas[1..])
  }

  function CountWithin(deltas: seq<real>): (n: nat)
    ensures n <= |deltas|
  {
    if deltas == [] then 0 else (if -TOLERANCE <= deltas[0] <= TOLERANCE then 1 else 0) + CountWithin(deltas[1..])
  }

  // ---------------------------------------------------------------- longitudinal

  predicate RoundLeq(x: Run, y: Run) { Round(x) <= Round(y) }

  function ByRound(runs: seq<Run>): seq<Run> { Sort(runs, RoundLeq) }

  predicate Consecutive(runs: seq<Run>) {
    forall i | 0 <= i < |runs| :: Round(runs[i]) == i
  }

  /** The first check that fails on the runs in round order. */
  function CurveFault(d: Digests, ordered: seq<Run>): Option<CompareError>
    requires ordered != []
  {
    var base := ordered[0];
    if !KeysDistinct(ordered, RunId) then Some(DuplicateRunIds)
    else if !Consecutive(ordered) then Some(RoundsNotConsecutive)
    else if base.contract.role != Baseline then Some(NotBaseline)
    else if exists i | 1 <= i < |ordered| :: ordered[i].contract.role != Evolved then Some(NotEvolved)
    else if exists i | 0 <= i < |ordered| :: ordered[i].contract.agent.family != base.contract.agent.family then Some(ManyFamilies)
    else if exists i | 1 <= i < |ordered| ::
        ordered[i].contract.agent.parent != Some(ordered[i - 1].contract.agent.snapshot) then Some(ParentChainBroken)
    else if exists i | 1 <= i < |ordered| :: FrozenHash(d, ordered[i]) != FrozenHash(d, base) then Some(FrozenContractChanged)
    else if exists i | 1 <= i < |ordered| ::
        ordered[i].contract.model != base.contract.model || ordered[i].contract.suite != base.contract.suite
      then Some(ModelOrSuiteChanged)
    else None
  }

  function PointOf(base: Run, run: Run): Point {
    Point(run.id, run.contract.agent.snapshot, Round(run), run.score, run.score - base.score, run.errorRate,
          run.inputTokens, run.outputTokens, run.cost)
  }

  function Points(ordered: seq<Run>): seq<Point>
    requires ordered != []
  {
    seq(|ordered|, i requires 0 <= i < |ordered| => PointOf(ordered[0], ordered[i]))
  }

  function RunDeltas(base: Run, run: Run): seq<TaskDelta> {
    seq(|run.aggregates|, i requires 0 <= i < |run.aggregates| =>
      var a := run.aggregates[i];
      var before := ScoreAt(base.aggregates, a.taskName);
      TaskDelta(run.id, Round(run), a.taskName, before, a.score, a.score - before))
  }

  function AllDeltas(base: Run, evolved: seq<Run>): seq<TaskDelta> {
    if evolved == [] then [] else AllDeltas(base, evolved[..|evolved| - 1]) + RunDeltas(base, evolved[|evolved| - 1])
  }

  function DeltasOfRound(deltas: seq<TaskDelta>, round: nat): seq<TaskDelta> {
    Filter(deltas, (t: TaskDelta) => t.round == round)
  }

  function Values(deltas: seq<TaskDelta>): seq<real> {
    seq(|deltas|, i requires 0 <= i < |deltas| => deltas[i].delta)
  }

  function DownwardRounds(ordered: seq<Run>): nat {
    if |ordered| < 2 then 0
    else
      var n := |ordered| - 1;
      DownwardRounds(ordered[..n]) + if ordered[n].score < ordered[n - 1].score - TOLERANCE then 1 else 0
  }

  /** `max(points, key=(score, -round))`. */
  function Best(points: seq<Point>): (best: nat)
    requires points != []
    ensures best < |points|
  {
    if |points| == 1 then 0
    else
      var n := |points| - 1;
      var earlier := Best(points[..n]);
      if points[n].score > points[earlier].score
         || (points[n].score == points[earlier].score && points[n].round < points[earlier].round) then n
      else earlier
  }

  function CurveReport(d: Digests, ordered: seq<Run>, comparisonId: string): LongitudinalReport
    requires ordered != []
  {
    var base, final := ordered[0], ordered[|ordered| - 1];
    var points, deltas := Points(ordered), AllDeltas(base, ordered[1..]);
    var finalDeltas := Values(DeltasOfRound(deltas, Round(final)));
    var improved, regressed := CountAbove(finalDeltas), CountBelow(finalDeltas);
    var downward := DownwardRounds(ordered);
    var report := LongitudinalReport(
      comparisonId, Ids(ordered), base.contract.agent.family, base.contract.model.hash, base.contract.suite.hash,
      FrozenHash(d, base), points, deltas, points[Best(points)].round, Round(final), base.score, final.score,
      final.score - base.score, improved, regressed, |finalDeltas| - improved - regressed, downward == 0, downward,
      final.errorRate - base.errorRate, IntDelta(final.inputTokens, base.inputTokens),
      IntDelta(final.outputTokens, base.outputTokens), RealDelta(final.cost, base.cost), "");
    report.(hash := d.longitudinal(report))
  }

  function Longitudinal(d: Digests, runs: seq<Run>, comparisonId: string): Result<LongitudinalReport, CompareError> {
    if |runs| < 2 then Err(TooFewRuns)
    else
      SortPermutes(runs, RoundLeq);
      var ordered := ByRound(runs);
      var fault := CurveFault(d, ordered);
      if fault.Some? then Err(fault.value) else Ok(CurveReport(d, ordered, comparisonId))
  }

  /** The report model's own validator. */
  predicate CurveReportValid(d: Digests, r: LongitudinalReport) {
    && |r.runIds| >= 2 && |r.runIds| == |r.points|
    && r.points[0].round == 0 && r.finalRound == r.points[|r.points| - 1].round
    && Near(r.baselineScore, r.points[0].score) && Near(r.finalScore, r.points[|r.points| - 1].score)
    && Near(r.finalGain, r.finalScore - r.baselineScore)
    && r.improved >= 0 && r.regressed >= 0 && r.tied >= 0
    && (forall i | 0 <= i < |r.taskDeltas| ::
          Near(r.taskDeltas[i].delta, r.taskDeltas[i].score - r.taskDeltas[i].baseline) && r.taskDeltas[i].round >= 1)
    && r.hash == d.longitudinal(r.(hash := ""))
  }

  // ---------------------------------------------------------------- same model, different agents

  /** The ranking key: higher score, lower error rate, agent name, evidence id. */
  predicate RankLeq(x: Run, y: Run) {
    if x.score != y.score then x.score > y.score
    else if x.errorRate != y.errorRate then x.errorRate < y.errorRate
    else if x.contract.agent.name != y.contract.agent.name then StringLeq(x.contract.agent.name, y.contract.agent.name)
    else StringLeq(x.id, y.id)
  }

  predicate IdLeq(x: Run, y: Run) { StringLeq(x.id, y.id) }

  function AgentKey(run: Run): (string, string, string, string) {
    var a := run.contract.agent;
    (a.family, a.name, a.version, a.snapshot)
  }

  function FindRun(runs: seq<Run>, id: string): (found: Option<Run>)
    ensures found.Some? ==> found.value in runs && found.value.id == id
    ensures found.None? ==> forall i | 0 <= i < |runs| :: runs[i].id != id
  {
    var found := Lookup(runs, RunId, id);
    assert found.None? ==> forall i | 0 <= i < |runs| :: RunId(runs[i]) != id;
    found
  }

  function RunFault(d: Digests, anchor: Run, run: Run): Option<CompareError> {
    if run.contract.model != anchor.contract.model then Some(ModelMismatch)
    else if run.contract.suite != anchor.contract.suite then Some(SuiteMismatch)
    else if FrozenHash(d, run) != FrozenHash(d, anchor) then Some(FrozenSettingChanged)
    else None
  }

  function FirstFault(d: Digests, anchor: Run, runs: seq<Run>): (fault: Option<CompareError>)
    ensures fault.None? <==> forall i | 0 <= i < |runs| :: RunFault(d, anchor, runs[i]).None?
  {
    if runs == [] then None
    else
      var earlier := FirstFault(d, anchor, runs[..|runs| - 1]);
      if earlier.Some? then earlier else RunFault(d, anchor, runs[|runs| - 1])
  }

  function Names(aggregates: seq<Aggregate>): seq<string> {
    seq(|aggregates|, i requires 0 <= i < |aggregates| => aggregates[i].taskName)
  }

  function PairDeltas(anchor: Run, other: Run): seq<real> {
    var names := Sort(Names(anchor.aggregates), StringLeq);
    seq(|names|, i requires 0 <= i < |names| => ScoreAt(anchor.aggregates, names[i]) - ScoreAt(other.aggregates, names[i]))
  }

  function Compare(anchor: Run, other: Run): Pairwise {
    var deltas := PairDeltas(anchor, other);
    Pairwise(other.id, CountAbove(deltas), CountBelow(deltas), CountWithin(deltas), anchor.score - other.score,
             anchor.errorRate - other.errorRate, IntDelta(anchor.inputTokens, other.inputTokens),
             IntDelta(anchor.outputTokens, other.outputTokens), RealDelta(anchor.cost, other.cost))
  }

  function Comparators(runs: seq<Run>, anchorId: string): seq<Run> {
    Sort(Filter(runs, (r: Run) => r.id != anchorId), IdLeq)
  }

  function CompareAll(anchor: Run, others: seq<Run>): seq<Pairwise> {
    seq(|others|, i requires 0 <= i < |others| => Compare(anchor, others[i]))
  }

  function Ranking(ordered: seq<Run>): seq<RankRow> {
    seq(|ordered|, i requires 0 <= i < |ordered| =>
      var r := ordered[i];
      RankRow(i + 1, r.id, r.contract.agent.name, r.contract.agent.version, r.contract.agent.snapshot, r.score, r.errorRate,
              r.inputTokens, r.outputTokens, r.cost))
  }

  function CrossReportOf(d: Digests, runs: seq<Run>, anchor: Run, comparisonId: string): CrossReport {
    var report := CrossReport(
      comparisonId, anchor.id, Ids(Sort(runs, IdLeq)), anchor.contract.model.hash, anchor.contract.suite.hash,
      FrozenHash(d, anchor), Ranking(Sort(runs, RankLeq)), CompareAll(anchor, Comparators(runs, anchor.id)), "");
    report.(hash := d.cross(report))
  }

  function SameModel(d: Digests, runs: seq<Run>, anchorId: string, comparisonId: string): Result<CrossReport, CompareError> {
    if |runs| < 2 then Err(TooFewRuns)
    else if !KeysDistinct(runs, RunId) then Err(DuplicateRunIds)
    else
      var found := FindRun(runs, anchorId);
      if found.None? then Err(AnchorMissing)
      else
        var fault := FirstFault(d, found.value, runs);
        if fault.Some? then Err(fault.value)
        else if !KeysDistinct(runs, AgentKey) then Err(DuplicateAgents)
        else Ok(CrossReportOf(d, runs, found.value, comparisonId))
  }

  /** `same_model_cross_agent`: check every run against the anchor, then append one comparison per comparator. */
  method SameModelCrossAgent(d: Digests, runs: seq<Run>, anchorId: string, comparisonId: string)
    returns (r: Result<CrossReport, CompareError>)
    ensures r == SameModel(d, runs, anchorId, comparisonId)
  {
    if |runs| < 2 {
      return Err(TooFewRuns);
    }
    if !KeysDistinct(runs, RunId) {
      return Err(DuplicateRunIds);
    }
    var found := FindRun(runs, anchorId);
    if found.None? {
      return Err(AnchorMissing);
    }
    var anchor := found.value;
    for i := 0 to |runs|
      invariant FirstFault(d, anchor, runs[..i]).None?
    {
      assert runs[..i + 1][..i] == runs[..i];
      var fault := RunFault(d, anchor, runs[i]);
      if fault.Some? {
        FirstFaultStays(d, anchor, runs, i + 1);
        return Err(fault.value);
      }
    }
    assert runs[..|runs|] == runs;
    if !KeysDistinct(runs, AgentKey) {
      return Err(DuplicateAgents);
    }
    var others := Comparators(runs, anchorId);
    var pairwise: seq<Pairwise> := [];
    for i := 0 to |others|
      invariant pairwise == CompareAll(anchor, others)[..i]
    {
      pairwise := pairwise + [Compare(anchor, others[i])];
    }
    assert pairwise == CompareAll(anchor, others);
    var report := CrossReport(
      comparisonId, anchorId, Ids(Sort(runs, IdLeq)), anchor.contract.model.hash, anchor.contract.suite.hash,
      FrozenHash(d, anchor), Ranking(Sort(runs, RankLeq)), pairwise, "");
    return Ok(report.(hash := d.cross(report)));
  }

  lemma {:induction false} FirstFaultStays(d: Digests, anchor: Run, runs: seq<Run>, n: nat)
    requires n <= |runs| && FirstFault(d, anchor, runs[..n]).Some?
    ensures FirstFault(d, anchor, runs) == FirstFault(d, anchor, runs[..n])
  {
    if n < |runs| {
      assert runs[..|runs| - 1][..n] == runs[..n];
      FirstFaultStays(d, anchor, runs[..|runs| - 1], n);
    } else {
      assert runs[..n] == runs;
    }
  }
}
