/** What a same-model report says, run by run and task by task, and when there is one. */
module ComparisonOutcomes {
  import opened Prelude
  import opened Ordering
  import opened BenchmarkModels
  import opened BenchmarkComparison
  import opened ComparisonTheorems
  import opened RankingTheorems
  import opened RoundAssessment

  // ---------------------------------------------------------------- counting tasks

  lemma {:induction false} CountsOfAppend(deltas: seq<real>, x: real)
    ensures CountAbove(deltas + [x]) == CountAbove(deltas) + if x > TOLERANCE then 1 else 0
    ensures CountBelow(deltas + [x]) == CountBelow(deltas) + if x < -TOLERANCE then 1 else 0
    ensures CountWithin(deltas + [x]) == CountWithin(deltas) + if -TOLERANCE <= x <= TOLERANCE then 1 else 0
  {
    if deltas == [] {
      assert [] + [x] == [x];
    } else {
      assert (deltas + [x])[1..] == deltas[1..] + [x];
      CountsOfAppend(deltas[1..], x);
    }
  }

  lemma {:induction false} AboveIsCardinality(deltas: seq<real>, n: nat)
    requires n <= |deltas|
    ensures CountAbove(deltas[..n]) == |set i | 0 <= i < n && deltas[i] > TOLERANCE|
  {
    if n > 0 {
      var m := n - 1;
      AboveIsCardinality(deltas, m);
      CountsOfAppend(deltas[..m], deltas[m]);
      assert deltas[..n] == deltas[..m] + [deltas[m]];
      assert (set i | 0 <= i < n && deltas[i] > TOLERANCE)
          == (set i | 0 <= i < m && deltas[i] > TOLERANCE) + if deltas[m] > TOLERANCE then {m} else {};
    }
  }

  lemma {:induction false} BelowIsCardinality(deltas: seq<real>, n: nat)
    requires n <= |deltas|
    ensures CountBelow(deltas[..n]) == |set i | 0 <= i < n && deltas[i] < -TOLERANCE|
  {
    if n > 0 {
      var m := n - 1;
      BelowIsCardinality(deltas, m);
      CountsOfAppend(deltas[..m], deltas[m]);
      assert deltas[..n] == deltas[..m] + [deltas[m]];
      assert (set i | 0 <= i < n && deltas[i] < -TOLERANCE)
          == (set i | 0 <= i < m && deltas[i] < -TOLERANCE) + if deltas[m] < -TOLERANCE then {m} else {};
    }
  }

  lemma {:induction false} WithinIsCardinality(deltas: seq<real>, n: nat)
    requires n <= |deltas|
    ensures CountWithin(deltas[..n]) == |set i | 0 <= i < n && -TOLERANCE <= deltas[i] <= TOLERANCE|
  {
    if n > 0 {
      var m := n - 1;
      WithinIsCardinality(deltas, m);
      CountsOfAppend(deltas[..m], deltas[m]);
      assert deltas[..n] == deltas[..m] + [deltas[m]];
      assert (set i | 0 <= i < n && -TOLERANCE <= deltas[i] <= TOLERANCE)
          == (set i | 0 <= i < m && -TOLERANCE <= deltas[i] <= TOLERANCE) + if -TOLERANCE <= deltas[m] <= TOLERANCE then {m} else {};
    }
  }

  /** The tasks on which `a` beats `b`. */
  function Beats(a: Run, b: Run): set<nat>
    requires |a.aggregates| == |b.aggregates|
  {
    set i | 0 <= i < |a.aggregates| && a.aggregates[i].score - b.aggregates[i].score > 0.000000000001
  }

  function Levels(a: Run, b: Run): set<nat>
    requires |a.aggregates| == |b.aggregates|
  {
    set i | 0 <= i < |a.aggregates| && -0.000000000001 <= a.aggregates[i].score - b.aggregates[i].score <= 0.000000000001
  }

  lemma CountTasks(a: Run, b: Run, deltas: seq<real>)
    requires |a.aggregates| == |b.aggregates| == |deltas|
    requires forall i | 0 <= i < |deltas| :: deltas[i] == a.aggregates[i].score - b.aggregates[i].score
    ensures CountAbove(deltas) == |Beats(a, b)| && CountBelow(deltas) == |Beats(b, a)| && CountWithin(deltas) == |Levels(a, b)|
  {
    var n := |deltas|;
    AboveIsCardinality(deltas, n);
    BelowIsCardinality(deltas, n);
    WithinIsCardinality(deltas, n);
    assert deltas[..n] == deltas;
    assert (set i | 0 <= i < n && deltas[i] > TOLERANCE) == Beats(a, b);
    assert (set i | 0 <= i < n && deltas[i] < -TOLERANCE) == Beats(b, a);
    assert (set i | 0 <= i < n && -TOLERANCE <= deltas[i] <= TOLERANCE) == Levels(a, b);
  }

  // ---------------------------------------------------------------- one comparison

  /** An optional difference: missing exactly when a side is, else left minus right. */
  ghost predicate IntGap(gap: Option<int>, left: Option<nat>, right: Option<nat>) {
    if left.Some? && right.Some? then gap == Some(left.value - right.value) else gap == None
  }

  ghost predicate RealGap(gap: Option<real>, left: Option<real>, right: Option<real>) {
    if left.Some? && right.Some? then gap == Some(left.value - right.value) else gap == None
  }

  /** The row tells how the anchor did against this run: its wins, its losses, and its figures less the other's. */
  ghost predicate TellsApart(p: Pairwise, anchor: Run, other: Run) {
    && |anchor.aggregates| == |other.aggregates|
    && p.comparatorId == other.id
    && p.wins == |Beats(anchor, other)| && p.losses == |Beats(other, anchor)| && p.ties == |Levels(anchor, other)|
    && p.scoreDelta == anchor.score - other.score && p.errorRateDelta == anchor.errorRate - other.errorRate
    && IntGap(p.inputDelta, anchor.inputTokens, other.inputTokens)
    && IntGap(p.outputDelta, anchor.outputTokens, other.outputTokens)
    && RealGap(p.costDelta, anchor.cost, other.cost)
  }

  lemma PairDeltasByTask(a: Run, b: Run)
    requires Aligned(a, b)
    ensures |PairDeltas(a, b)| == |a.aggregates|
    ensures forall i | 0 <= i < |a.aggregates| :: PairDeltas(a, b)[i] == a.aggregates[i].score - b.aggregates[i].score
  {
    assert |Names(a.aggregates)| == |a.aggregates|;
    forall i | 0 <= i < |a.aggregates| ensures PairDeltas(a, b)[i] == a.aggregates[i].score - b.aggregates[i].score {
      assert Names(a.aggregates)[i] == a.aggregates[i].taskName;
      DeltaOfTask(a, b, i);
    }
  }

  lemma ComparisonTellsApart(digest: RunDigest, anchor: Run, other: Run)
    requires RunValid(digest, anchor) && RunValid(digest, other) && anchor.contract.suite == other.contract.suite
    ensures TellsApart(Compare(anchor, other), anchor, other)
  {
    ValidRunsAlign(digest, anchor, other);
    AlignedTellsApart(anchor, other);
  }

  lemma AlignedTellsApart(anchor: Run, other: Run)
    requires Aligned(anchor, other)
    ensures TellsApart(Compare(anchor, other), anchor, other)
  {
    PairDeltasByTask(anchor, other);
    CountTasks(anchor, other, PairDeltas(anchor, other));
  }

  // ---------------------------------------------------------------- the report

  lemma SharedSuite(d: Digests, runs: seq<Run>, anchorId: string, comparisonId: string)
    requires SameModel(d, runs, anchorId, comparisonId).Ok?
    ensures FindRun(runs, anchorId).Some?
    ensures forall run | run in runs :: RunFault(d, FindRun(runs, anchorId).value, run).None?
  {
    var anchor := FindRun(runs, anchorId).value;
    assert FirstFault(d, anchor, runs).None?;
    forall run | run in runs ensures RunFault(d, anchor, run).None? {
      var i :| 0 <= i < |runs| && runs[i] == run;
    }
  }

  lemma OthersAreOrdered(runs: seq<Run>, anchorId: string)
    ensures var others := Comparators(runs, anchorId);
            && (forall i, j | 0 <= i < j < |others| :: StringLeq(others[i].id, others[j].id))
            && (forall x | x in others :: x in runs)
  {
    var keep := (r: Run) => r.id != anchorId;
    IdOrder();
    SortSorts(Filter(runs, keep), IdLeq);
    SortPermutes(Filter(runs, keep), IdLeq);
    FilterPermutes(runs, runs, keep);
    var others := Comparators(runs, anchorId);
    forall i, j | 0 <= i < j < |others| ensures StringLeq(others[i].id, others[j].id) {
      assert IdLeq(others[i], others[j]);
    }
  }

  /**
   * The pairwise rows of an accepted report of validated runs: one for every
   * run but the anchor, in the order of their ids, each telling how the
   * anchor did against that run.
   */
  lemma PairwiseOutcome(d: Digests, runs: seq<Run>, anchorId: string, comparisonId: string) returns (anchor: Run, others: seq<Run>)
    requires SameModel(d, runs, anchorId, comparisonId).Ok?
    requires forall run | run in runs :: RunValid(d.run, run)
    ensures anchor.id == anchorId && multiset(runs) == multiset(others) + multiset{anchor}
    ensures forall i, j | 0 <= i < j < |others| :: StringLeq(others[i].id, others[j].id)
    ensures var rows := SameModel(d, runs, anchorId, comparisonId).value.pairwise;
            |rows| == |others| && forall i | 0 <= i < |rows| :: TellsApart(rows[i], anchor, others[i])
  {
    anchor, others := PairwiseParts(d, runs, anchorId, comparisonId);
    forall i | 0 <= i < |others| ensures TellsApart(Compare(anchor, others[i]), anchor, others[i]) {
      assert others[i] in runs;
      ComparisonTellsApart(d.run, anchor, others[i]);
    }
  }

  lemma PairwiseParts(d: Digests, runs: seq<Run>, anchorId: string, comparisonId: string) returns (anchor: Run, others: seq<Run>)
    requires SameModel(d, runs, anchorId, comparisonId).Ok?
    ensures anchor.id == anchorId && anchor in runs && multiset(runs) == multiset(others) + multiset{anchor}
    ensures forall i, j | 0 <= i < j < |others| :: StringLeq(others[i].id, others[j].id)
    ensures forall x | x in others :: x in runs && x.contract.suite == anchor.contract.suite
    ensures SameModel(d, runs, anchorId, comparisonId).value.pairwise == CompareAll(anchor, others)
  {
    ReportComesFromRuns(d, runs, anchorId, comparisonId);
    SharedSuite(d, runs, anchorId, comparisonId);
    anchor, others := FindRun(runs, anchorId).value, Comparators(runs, anchorId);
    OthersAreTheRest(runs, anchor);
    OthersAreOrdered(runs, anchorId);
  }

  // ---------------------------------------------------------------- when there is a report

  /** Nothing that must stay frozen differs. */
  predicate SameTerms(a: Contract, b: Contract) {
    && a.suite == b.suite && a.model == b.model && a.reasoningEffort == b.reasoningEffort
    && a.trialsPerTask == b.trialsPerTask && a.timeoutMultiplier == b.timeoutMultiplier
    && a.agentTimeoutOverride == b.agentTimeoutOverride && a.verifierTimeoutOverride == b.verifierTimeoutOverride
    && a.resourceOverrides == b.resourceOverrides && a.defaultsAttested == b.defaultsAttested
    && a.source == b.source && a.budget == b.budget
  }

  lemma FrozenIsSameTerms(a: Contract, b: Contract)
    ensures Frozen(a) == Frozen(b) <==> SameTerms(a, b)
  {
  }

  /** Same agent build: family, name, version and snapshot. */
  predicate SameAgent(a: Run, b: Run) {
    var x, y := a.contract.agent, b.contract.agent;
    x.family == y.family && x.name == y.name && x.version == y.version && x.snapshot == y.snapshot
  }

  lemma AgentsDistinct(runs: seq<Run>)
    ensures KeysDistinct(runs, AgentKey) <==> forall i, j | 0 <= i < j < |runs| :: !SameAgent(runs[i], runs[j])
    ensures KeysDistinct(runs, RunId) <==> forall i, j | 0 <= i < j < |runs| :: runs[i].id != runs[j].id
  {
    KeysBound(runs, AgentKey);
    KeysBound(runs, RunId);
    assert forall i, j | 0 <= i < j < |runs| :: AgentKey(runs[i]) != AgentKey(runs[j]) <==> !SameAgent(runs[i], runs[j]);
    assert forall i, j | 0 <= i < j < |runs| :: RunId(runs[i]) != RunId(runs[j]) <==> runs[i].id != runs[j].id;
  }

  /** Two runs with one id, or two runs of one agent. */
  ghost predicate Repeats(runs: seq<Run>) {
    exists i, j | 0 <= i < j < |runs| :: runs[i].id == runs[j].id
  }

  ghost predicate RepeatsAgent(runs: seq<Run>) {
    exists i, j | 0 <= i < j < |runs| :: SameAgent(runs[i], runs[j])
  }

  /** The check run `x` fails against the anchor. */
  ghost predicate Deviates(d: Digests, anchor: Run, x: Run, e: CompareError) {
    match e
    case ModelMismatch => x.contract.model != anchor.contract.model
    case SuiteMismatch => x.contract.model == anchor.contract.model && x.contract.suite != anchor.contract.suite
    case FrozenSettingChanged =>
      && x.contract.model == anchor.contract.model && x.contract.suite == anchor.contract.suite
      && d.frozen(Frozen(x.contract)) != d.frozen(Frozen(anchor.contract))
    case _ => false
  }

  lemma {:induction false} FirstFaultDeviates(d: Digests, anchor: Run, runs: seq<Run>) returns (k: nat)
    requires FirstFault(d, anchor, runs).Some?
    ensures k < |runs| && Deviates(d, anchor, runs[k], FirstFault(d, anchor, runs).value)
    ensures forall i | 0 <= i < k :: RunFault(d, anchor, runs[i]).None?
  {
    var n := |runs| - 1;
    if FirstFault(d, anchor, runs[..n]).Some? {
      k := FirstFaultDeviates(d, anchor, runs[..n]);
    } else {
      k := n;
    }
  }

  /** The error names what is wrong with the runs: the first failing check, and for a deviating run the first such run. */
  ghost predicate Explains(d: Digests, runs: seq<Run>, anchorId: string, e: CompareError) {
    match e
    case TooFewRuns => |runs| < 2
    case DuplicateRunIds => |runs| >= 2 && Repeats(runs)
    case AnchorMissing => |runs| >= 2 && !Repeats(runs) && forall i | 0 <= i < |runs| :: runs[i].id != anchorId
    case DuplicateAgents => |runs| >= 2 && !Repeats(runs) && RepeatsAgent(runs)
    case _ =>
      && |runs| >= 2 && !Repeats(runs)
      && exists a, k | 0 <= a < |runs| && 0 <= k < |runs| :: runs[a].id == anchorId && Deviates(d, runs[a], runs[k], e)
  }

  /** An error says what is wrong with the runs. */
  lemma SameModelErrorExplains(d: Digests, runs: seq<Run>, anchorId: string, comparisonId: string)
    requires SameModel(d, runs, anchorId, comparisonId).Err?
    ensures Explains(d, runs, anchorId, SameModel(d, runs, anchorId, comparisonId).error)
  {
    AgentsDistinct(runs);
    var found := FindRun(runs, anchorId);
    if found.Some? && FirstFault(d, found.value, runs).Some? {
      var a :| 0 <= a < |runs| && runs[a] == found.value;
      var k := FirstFaultDeviates(d, found.value, runs);
      assert runs[a].id == anchorId && Deviates(d, runs[a], runs[k], FirstFault(d, found.value, runs).value);
    }
  }

  /** Run `a` is the anchor and every run has its model, suite and frozen terms. */
  ghost predicate Anchors(d: Digests, runs: seq<Run>, a: nat, anchorId: string)
    requires a < |runs|
  {
    && runs[a].id == anchorId
    && forall k | 0 <= k < |runs| ::
         && runs[k].contract.model == runs[a].contract.model && runs[k].contract.suite == runs[a].contract.suite
         && d.frozen(Frozen(runs[k].contract)) == d.frozen(Frozen(runs[a].contract))
  }

  lemma FoundAnchors(d: Digests, runs: seq<Run>, anchorId: string, a: nat)
    requires a < |runs| && FindRun(runs, anchorId) == Some(runs[a])
    ensures FirstFault(d, runs[a], runs).None? <==> Anchors(d, runs, a, anchorId)
  {
    assert forall k | 0 <= k < |runs| :: RunFault(d, runs[a], runs[k]).None? <==>
        && runs[k].contract.model == runs[a].contract.model && runs[k].contract.suite == runs[a].contract.suite
        && d.frozen(Frozen(runs[k].contract)) == d.frozen(Frozen(runs[a].contract));
  }

  /** There is a report exactly when the ids are distinct, the agents are distinct, and some run anchors all of them. */
  lemma SameModelAcceptsExactlyWhen(d: Digests, runs: seq<Run>, anchorId: string, comparisonId: string)
    ensures SameModel(d, runs, anchorId, comparisonId).Ok? <==>
              && |runs| >= 2 && !Repeats(runs) && !RepeatsAgent(runs)
              && exists a | 0 <= a < |runs| :: Anchors(d, runs, a, anchorId)
  {
    AgentsDistinct(runs);
    var found := FindRun(runs, anchorId);
    if found.Some? && !Repeats(runs) {
      var a :| 0 <= a < |runs| && runs[a] == found.value;
      FoundAnchors(d, runs, anchorId, a);
      assert forall b | 0 <= b < |runs| && runs[b].id == anchorId :: b == a;
    }
  }

  /** The report carries the anchor's model, suite and frozen terms, and all ids in order. */
  lemma CrossReportHeader(d: Digests, runs: seq<Run>, anchorId: string, comparisonId: string) returns (anchor: Run, sorted: seq<Run>)
    requires SameModel(d, runs, anchorId, comparisonId).Ok?
    ensures anchor in runs && anchor.id == anchorId && multiset(sorted) == multiset(runs)
    ensures forall i, j | 0 <= i < j < |sorted| :: StringLeq(sorted[i].id, sorted[j].id)
    ensures var r := SameModel(d, runs, anchorId, comparisonId).value;
            && r.comparisonId == comparisonId && r.anchorId == anchorId
            && |r.runIds| == |sorted| && (forall i | 0 <= i < |sorted| :: r.runIds[i] == sorted[i].id)
            && r.modelHash == anchor.contract.model.hash && r.suiteHash == anchor.contract.suite.hash
            && r.frozenHash == d.frozen(Frozen(anchor.contract)) && r.hash == d.cross(r.(hash := ""))
  {
    ReportComesFromRuns(d, runs, anchorId, comparisonId);
    anchor, sorted := FindRun(runs, anchorId).value, Sort(runs, IdLeq);
    IdOrder();
    SortSorts(runs, IdLeq);
    SortPermutes(runs, IdLeq);
    var r := CrossReportOf(d, runs, anchor, comparisonId);
    assert r.(hash := "") == r.(hash := "").(hash := "");
    forall i, j | 0 <= i < j < |sorted| ensures StringLeq(sorted[i].id, sorted[j].id) {
      assert IdLeq(sorted[i], sorted[j]);
    }
  }
}
