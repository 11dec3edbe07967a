/** What a same-model report says about the runs it was computed from. */
module RankingTheorems {
  import opened Prelude
  import opened Ordering
  import opened BenchmarkModels
  import opened BenchmarkComparison
  import opened ComparisonTheorems

  /** The report model's own validator. */
  predicate CrossReportValid(d: Digests, r: CrossReport) {
    && |r.runIds| >= 2 && |r.ranking| == |r.runIds|
    && r.anchorId in r.runIds
    && (forall i | 0 <= i < |r.ranking| :: r.ranking[i].rank == i + 1)
    && |r.pairwise| == |r.runIds| - 1
    && r.hash == d.cross(r.(hash := ""))
  }

  /** Row `i` of a ranking reports exactly run `i` of the order it was made from. */
  ghost predicate Reports(row: RankRow, run: Run, rank: nat) {
    && row.rank == rank && row.runId == run.id && row.score == run.score && row.errorRate == run.errorRate
    && row.agentName == run.contract.agent.name && row.agentVersion == run.contract.agent.version
    && row.snapshot == run.contract.agent.snapshot
    && row.inputTokens == run.inputTokens && row.outputTokens == run.outputTokens && row.cost == run.cost
  }

  lemma ReportComesFromRuns(d: Digests, runs: seq<Run>, anchorId: string, comparisonId: string)
    requires SameModel(d, runs, anchorId, comparisonId).Ok?
    ensures |runs| >= 2 && KeysDistinct(runs, RunId) && FindRun(runs, anchorId).Some?
    ensures SameModel(d, runs, anchorId, comparisonId).value
         == CrossReportOf(d, runs, FindRun(runs, anchorId).value, comparisonId)
  {
  }

  /** `x` may stand before `y`: higher score, else fewer errors, else the earlier agent name, else the earlier id. */
  predicate MayPrecede(x: Run, y: Run) {
    || x.score > y.score
    || (x.score == y.score && x.errorRate < y.errorRate)
    || (x.score == y.score && x.errorRate == y.errorRate && x.contract.agent.name != y.contract.agent.name
        && StringLeq(x.contract.agent.name, y.contract.agent.name))
    || (x.score == y.score && x.errorRate == y.errorRate && x.contract.agent.name == y.contract.agent.name
        && StringLeq(x.id, y.id))
  }

  lemma RankedRuns(runs: seq<Run>)
    ensures var ordered := Sort(runs, RankLeq);
            && multiset(ordered) == multiset(runs)
            && (forall i, j | 0 <= i < j < |ordered| :: MayPrecede(ordered[i], ordered[j]))
  {
    var ordered := Sort(runs, RankLeq);
    RankOrder();
    SortPermutes(runs, RankLeq);
    SortSorts(runs, RankLeq);
    forall i, j | 0 <= i < j < |ordered| ensures MayPrecede(ordered[i], ordered[j]) {
      assert RankLeq(ordered[i], ordered[j]);
    }
  }

  /**
   * The ranking lists every run once, best first: the rows report a
   * permutation of the runs, and whoever stands higher may precede whoever
   * stands lower by score, errors, agent name and id, in that order.
   */
  lemma RankingOrdersAllRuns(d: Digests, runs: seq<Run>, anchorId: string, comparisonId: string) returns (ordered: seq<Run>)
    requires SameModel(d, runs, anchorId, comparisonId).Ok?
    ensures var ranking := SameModel(d, runs, anchorId, comparisonId).value.ranking;
            && multiset(ordered) == multiset(runs) && |ranking| == |ordered|
            && (forall i | 0 <= i < |ordered| :: Reports(ranking[i], ordered[i], i + 1))
    ensures forall i, j | 0 <= i < j < |ordered| :: MayPrecede(ordered[i], ordered[j])
  {
    ordered := Sort(runs, RankLeq);
    ReportComesFromRuns(d, runs, anchorId, comparisonId);
    RankedRuns(runs);
    RowsReport(ordered);
  }

  lemma RowsReport(ordered: seq<Run>)
    ensures |Ranking(ordered)| == |ordered|
    ensures forall i | 0 <= i < |ordered| :: Reports(Ranking(ordered)[i], ordered[i], i + 1)
  {
  }

  lemma {:induction false} DistinctOccurOnce(runs: seq<Run>, x: Run)
    requires forall i, j | 0 <= i < j < |runs| :: runs[i].id != runs[j].id
    ensures multiset(runs)[x] <= 1
  {
    if runs != [] {
      DistinctOccurOnce(runs[1..], x);
      assert runs == [runs[0]] + runs[1..];
      if runs[0] == x {
        assert x !in runs[1..];
        assert x !in multiset(runs[1..]);
      }
    }
  }

  lemma SharedIdIsSameRun(runs: seq<Run>, anchor: Run, x: Run)
    requires KeysDistinct(runs, RunId) && anchor in runs && x.id == anchor.id
    ensures multiset(runs)[x] == if x == anchor then 1 else 0
  {
    KeysBound(runs, RunId);
    forall i, j | 0 <= i < j < |runs| ensures runs[i].id != runs[j].id {
      assert RunId(runs[i]) != RunId(runs[j]);
    }
    DistinctOccurOnce(runs, x);
    assert anchor in multiset(runs);
    if x in multiset(runs) {
      var i :| 0 <= i < |runs| && runs[i] == x;
      var j :| 0 <= j < |runs| && runs[j] == anchor;
    }
  }

  /** Leaving out one of several runs with distinct ids leaves exactly the others. */
  lemma OthersAreTheRest(runs: seq<Run>, anchor: Run)
    requires KeysDistinct(runs, RunId) && anchor in runs
    ensures multiset(runs) == multiset(Comparators(runs, anchor.id)) + multiset{anchor}
    ensures |Comparators(runs, anchor.id)| == |runs| - 1
  {
    var keep := (r: Run) => r.id != anchor.id;
    var others := Comparators(runs, anchor.id);
    SortPermutes(Filter(runs, keep), IdLeq);
    forall x: Run ensures multiset(runs)[x] == (multiset(others) + multiset{anchor})[x] {
      FilterCounts(runs, keep, x);
      if x.id == anchor.id {
        SharedIdIsSameRun(runs, anchor, x);
      }
    }
    assert multiset(runs) == multiset(others) + multiset{anchor};
    assert |multiset(runs)| == |multiset(others)| + 1;
    assert |multiset(runs)| == |runs| && |multiset(others)| == |others|;
  }

  /** Every run but the anchor is compared with the anchor exactly once, and nothing else is. */
  lemma PairwiseCoversOthers(d: Digests, runs: seq<Run>, anchorId: string, comparisonId: string)
    returns (anchor: Run, others: seq<Run>)
    requires SameModel(d, runs, anchorId, comparisonId).Ok?
    ensures anchor.id == anchorId && multiset(runs) == multiset(others) + multiset{anchor}
    ensures SameModel(d, runs, anchorId, comparisonId).value.pairwise == CompareAll(anchor, others)
    ensures |others| == |runs| - 1
  {
    ReportComesFromRuns(d, runs, anchorId, comparisonId);
    anchor := FindRun(runs, anchorId).value;
    others := Comparators(runs, anchorId);
    OthersAreTheRest(runs, anchor);
  }

  lemma AnchorIsListed(runs: seq<Run>, anchorId: string)
    requires FindRun(runs, anchorId).Some?
    ensures anchorId in Ids(Sort(runs, IdLeq)) && |Ids(Sort(runs, IdLeq))| == |runs|
  {
    var sorted := Sort(runs, IdLeq);
    SortPermutes(runs, IdLeq);
    assert FindRun(runs, anchorId).value in sorted;
    var i :| 0 <= i < |sorted| && sorted[i] == FindRun(runs, anchorId).value;
    assert Ids(sorted)[i] == anchorId;
  }

  lemma ReportOfRunsIsValid(d: Digests, runs: seq<Run>, anchor: Run, comparisonId: string)
    requires |runs| >= 2 && |Sort(runs, RankLeq)| == |runs|
    requires anchor.id in Ids(Sort(runs, IdLeq)) && |Ids(Sort(runs, IdLeq))| == |runs|
    requires |Comparators(runs, anchor.id)| == |runs| - 1
    ensures CrossReportValid(d, CrossReportOf(d, runs, anchor, comparisonId))
  {
    var report := CrossReportOf(d, runs, anchor, comparisonId);
    assert report.(hash := "") == report.(hash := "").(hash := "");
  }

  /** A report the comparator returns always passes the report model's validator. */
  lemma CrossReportPassesValidation(d: Digests, runs: seq<Run>, anchorId: string, comparisonId: string)
    requires SameModel(d, runs, anchorId, comparisonId).Ok?
    ensures CrossReportValid(d, SameModel(d, runs, anchorId, comparisonId).value)
  {
    ReportComesFromRuns(d, runs, anchorId, comparisonId);
    var anchor := FindRun(runs, anchorId).value;
    OthersAreTheRest(runs, anchor);
    AnchorIsListed(runs, anchorId);
    SortPermutes(runs, RankLeq);
    ReportOfRunsIsValid(d, runs, anchor, comparisonId);
  }
}
