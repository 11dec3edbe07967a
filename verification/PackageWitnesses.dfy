/** The hypotheses of the package theorem can be met: an evidence history that yields an accepted package. */
module PackageWitnesses {
  import opened Prelude
  import opened Ordering
  import opened AuditChain
  import opened BenchmarkModels
  import opened BenchmarkComparison
  import opened ComparisonTheorems
  import opened ComparisonWitnesses
  import opened EvidenceRegistry
  import opened ComparisonPackage
  import opened PackageTheorems

  /** Two valid runs of one evolution curve by one model. */
  ghost predicate CurvePair(d: Digests, a: Run, b: Run) {
    && RunValid(d.run, a) && RunValid(d.run, b) && a.id != b.id
    && a.contract == OneTaskContract(0) && b.contract == OneTaskContract(1)
  }

  lemma PairExists(d: Digests) returns (a: Run, b: Run)
    ensures CurvePair(d, a, b)
  {
    a, b := DriftedRun(d.run, 0, 0.0), DriftedRun(d.run, 1, 0.0);
    DriftedRunIsValid(d.run, 0, 0.0);
    DriftedRunIsValid(d.run, 1, 0.0);
    assert |"r0"| != |"r1x"|;
  }

  lemma PairIsDistinct(d: Digests, a: Run, b: Run)
    requires CurvePair(d, a, b)
    ensures KeysDistinct([a, b], RunId) && KeysDistinct([a, b], AgentKey)
  {
    KeysBound([a, b], RunId);
    KeysBound([a, b], AgentKey);
    assert |"a0"| != |"a1x"|;
    assert RunId(a) != RunId(b) && AgentKey(a) != AgentKey(b);
  }

  lemma PairHasCurve(d: Digests, a: Run, b: Run, comparisonId: string) returns (curve: LongitudinalReport)
    requires CurvePair(d, a, b)
    ensures Longitudinal(d, [a, b], comparisonId) == Ok(curve) && curve.comparisonId == comparisonId
  {
    assert [a, b][1..] == [b];
    SortSingleton(b, RoundLeq);
    assert Round(a) == 0 && Round(b) == 1;
    assert ByRound([a, b]) == [a, b];
    DriftedCurveIsAccepted(d, a, b);
    curve := CurveReport(d, [a, b], comparisonId);
  }

  lemma PairHasNoFault(d: Digests, a: Run, b: Run)
    requires CurvePair(d, a, b)
    ensures FindRun([a, b], a.id) == Some(a) && FirstFault(d, a, [a, b]).None?
  {
    PairIsDistinct(d, a, b);
    FindByOwnId([a, b], a);
    assert Frozen(a.contract) == Frozen(b.contract);
    forall i | 0 <= i < 2 ensures RunFault(d, a, [a, b][i]).None? {
    }
  }

  lemma PairHasRanking(d: Digests, a: Run, b: Run, comparisonId: string) returns (cross: CrossReport)
    requires CurvePair(d, a, b)
    ensures SameModel(d, [a, b], a.id, comparisonId) == Ok(cross)
    ensures cross.anchorId == a.id && cross.comparisonId == comparisonId
  {
    PairIsDistinct(d, a, b);
    PairHasNoFault(d, a, b);
    cross := CrossReportOf(d, [a, b], a, comparisonId);
  }

  function EventId(entry: Entry): string { entry.eventId }

  lemma HistoryExtends(hash: EntryHash, calls: seq<RegistryCall>, c: RegistryCall)
    ensures History(hash, calls + [c]) == After(hash, History(hash, calls), c)
  {
    assert (calls + [c])[..|calls|] == calls;
  }

  lemma RecordRun(hash: EntryHash, calls: seq<RegistryCall>, run: Run, eventId: string) returns (more: seq<RegistryCall>)
    requires var s := History(hash, calls); Numbered(s.events, EventId, |eventId|) && run.id !in s.runs
    ensures var s, t := History(hash, calls), History(hash, more);
            t.runs == s.runs[run.id := run] && t.reports == s.reports && Numbered(t.events, EventId, |eventId| + 1)
  {
    var c := RegistryCall(WriteRun(run), "importer", eventId, 0);
    more := calls + [c];
    HistoryExtends(hash, calls, c);
  }

  lemma RecordReport(hash: EntryHash, calls: seq<RegistryCall>, report: Report, eventId: string) returns (more: seq<RegistryCall>)
    requires var s := History(hash, calls); Numbered(s.events, EventId, |eventId|) && ReportId(report) !in s.reports
    ensures var s, t := History(hash, calls), History(hash, more);
            t.runs == s.runs && t.reports == s.reports[ReportId(report) := report] && Numbered(t.events, EventId, |eventId| + 1)
  {
    var c := RegistryCall(WriteReport(report), "comparator", eventId, 0);
    more := calls + [c];
    HistoryExtends(hash, calls, c);
  }

  lemma RecordAll(hash: EntryHash, a: Run, b: Run, curve: LongitudinalReport, cross: CrossReport) returns (calls: seq<RegistryCall>)
    requires a.id != b.id && curve.comparisonId != cross.comparisonId
    ensures var s := History(hash, calls);
            && s.runs == map[a.id := a, b.id := b]
            && s.reports == map[curve.comparisonId := Curve(curve), cross.comparisonId := Cross(cross)]
  {
    calls := RecordRun(hash, [], a, "");
    calls := RecordRun(hash, calls, b, "e");
    calls := RecordReport(hash, calls, Curve(curve), "ee");
    calls := RecordReport(hash, calls, Cross(cross), "eee");
  }

  lemma PairIsHeld(s: Registry, a: Run, b: Run)
    requires a.id != b.id && s.runs == map[a.id := a, b.id := b]
    ensures HoldsRuns(s, [a, b])
  {
    assert [a, b] == [a] + [b];
    KeysOfLonger([], a, RunId);
    assert [] + [a] == [a] && Keys<Run, string>([], RunId) == {};
    KeysOfLonger([a], b, RunId);
  }

  function PairPackage(h: Hashing, header: Header, a: Run, b: Run, curve: LongitudinalReport, cross: CrossReport, log: EntryLog)
    : Manifest
  {
    Assemble(h, header, a.contract.suite, [a, b], curve, cross, Assessments([a, b]), log, CheckpointOf(log))
  }

  lemma PairSharesSuite(d: Digests, a: Run, b: Run)
    requires CurvePair(d, a, b)
    ensures forall i | 0 <= i < |[a, b]| :: [a, b][i].contract.suite == a.contract.suite
    ensures KeysDistinct([a, b], RunId)
  {
    PairIsDistinct(d, a, b);
  }

  lemma PairPackageVerifies(h: Hashing, header: Header, a: Run, b: Run, curve: LongitudinalReport, cross: CrossReport,
                            calls: seq<RegistryCall>)
    requires a.id != b.id && curve.comparisonId != cross.comparisonId
    requires KeysDistinct([a, b], RunId) && forall i | 0 <= i < |[a, b]| :: [a, b][i].contract.suite == a.contract.suite
    requires Longitudinal(h.digests, [a, b], curve.comparisonId) == Ok(curve)
    requires SameModel(h.digests, [a, b], cross.anchorId, cross.comparisonId) == Ok(cross)
    requires History(h.entry, calls).runs == map[a.id := a, b.id := b]
    requires History(h.entry, calls).reports == map[curve.comparisonId := Curve(curve), cross.comparisonId := Cross(cross)]
    ensures Acceptable(h, PairPackage(h, header, a, b, curve, cross, History(h.entry, calls).events))
  {
    PairIsHeld(History(h.entry, calls), a, b);
    BuiltFromRegistryVerifies(h, header, a.contract.suite, [a, b], [a, b], [a, b], curve, cross, calls);
  }

  /** Whatever the digests are, some history of imports and stores leads to a package that verifies. */
  lemma PackagesExist(h: Hashing, header: Header) returns (a: Run, b: Run, m: Manifest)
    ensures Acceptable(h, m) && m.runs == [a, b] && CurvePair(h.digests, a, b)
  {
    a, b := PairExists(h.digests);
    var curve := PairHasCurve(h.digests, a, b, "c");
    var cross := PairHasRanking(h.digests, a, b, "cc");
    assert |"c"| != |"cc"|;
    var calls := RecordAll(h.entry, a, b, curve, cross);
    PairSharesSuite(h.digests, a, b);
    PairPackageVerifies(h, header, a, b, curve, cross, calls);
    m := PairPackage(h, header, a, b, curve, cross, History(h.entry, calls).events);
  }

  /**
   * A real report can be stored although its runs were never imported: one
   * call on an empty registry commits, and the state check fails afterwards.
   */
  lemma DanglingReportFailsStateCheck(h: Hashing) returns (curve: LongitudinalReport, call: RegistryCall)
    ensures exists a, b :: CurvePair(h.digests, a, b) && Longitudinal(h.digests, [a, b], "c") == Ok(curve)
    ensures Perform(h.entry, EMPTY_REGISTRY, call) == Ok(Stored(History(h.entry, [call]), false))
    ensures call.write == WriteReport(Curve(curve)) && !StateHolds(h.entry, History(h.entry, [call]))
  {
    var a, b := PairExists(h.digests);
    curve := PairHasCurve(h.digests, a, b, "c");
    call := RegistryCall(WriteReport(Curve(curve)), "comparator", "", 0);
    HistoryExtends(h.entry, [], call);
    assert [] + [call] == [call];
    var s := History(h.entry, [call]);
    assert s.reports == map["c" := Curve(curve)] && s.runs == map[];
    CurveIds(h.digests, [a, b], "c");
    SortPermutes([a, b], RoundLeq);
    assert RunIdsOf(Curve(curve))[0] !in s.runs;
    assert !Resolved(s.runs, s.reports["c"]);
  }
}
