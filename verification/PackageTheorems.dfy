/** What building from a registry guarantees, and what an accepted package does and does not pin down. */
module PackageTheorems {
  import opened Prelude
  import opened Ordering
  import opened AuditChain
  import opened BenchmarkModels
  import opened BenchmarkComparison
  import opened ComparisonTheorems
  import opened EvidenceRegistry
  import opened ComparisonPackage

  function Assessments(runs: seq<Run>): seq<Eligibility> {
    seq(|runs|, i requires 0 <= i < |runs| => Assess(runs[i]))
  }

  // ---------------------------------------------------------------- build, then verify

  lemma FindByOwnId(runs: seq<Run>, run: Run)
    requires KeysDistinct(runs, RunId) && run in runs
    ensures FindRun(runs, run.id) == Some(run)
  {
    KeysBound(runs, RunId);
    var i :| 0 <= i < |runs| && runs[i] == run;
    var found := FindRun(runs, run.id);
    assert RunId(runs[i]) == run.id;
    if found.Some? {
      var j :| 0 <= j < |runs| && runs[j] == found.value;
      assert RunId(runs[j]) == RunId(runs[i]);
    }
  }

  /** Looking packaged runs up by the ids of some of them gives exactly those runs back. */
  lemma ResolveGivesBack(runs: seq<Run>, some: seq<Run>)
    requires KeysDistinct(runs, RunId) && forall x | x in some :: x in runs
    ensures AllPresent(runs, Ids(some)) && Resolve(runs, Ids(some)) == some
  {
    forall i | 0 <= i < |some| ensures FindRun(runs, Ids(some)[i]) == Some(some[i]) {
      FindByOwnId(runs, some[i]);
    }
  }

  lemma ReportsRecomputeFromAnyOrder(d: Digests, runs: seq<Run>, curve: LongitudinalReport, cross: CrossReport,
                                     curveRuns: seq<Run>, crossRuns: seq<Run>)
    requires KeysDistinct(runs, RunId)
    requires (forall x | x in curveRuns :: x in runs) && (forall x | x in crossRuns :: x in runs)
    requires Longitudinal(d, curveRuns, curve.comparisonId) == Ok(curve)
    requires SameModel(d, crossRuns, cross.anchorId, cross.comparisonId) == Ok(cross)
    ensures ReportsRecompute(d, runs, curve, cross)
  {
    var ordered, sorted := ByRound(curveRuns), Sort(crossRuns, IdLeq);
    SortPermutes(curveRuns, RoundLeq);
    SortPermutes(crossRuns, IdLeq);
    ResolveGivesBack(runs, ordered);
    ResolveGivesBack(runs, sorted);
    LongitudinalIsCanonical(d, curveRuns, ordered, curve.comparisonId);
    SameModelIsCanonical(d, crossRuns, sorted, cross.anchorId, cross.comparisonId);
    CurveIds(d, curveRuns, curve.comparisonId);
    CrossIds(d, crossRuns, cross.anchorId, cross.comparisonId);
  }

  lemma CurveIds(d: Digests, runs: seq<Run>, id: string)
    requires Longitudinal(d, runs, id).Ok?
    ensures Longitudinal(d, runs, id).value.runIds == Ids(ByRound(runs))
  {
  }

  lemma CrossIds(d: Digests, runs: seq<Run>, anchorId: string, id: string)
    requires SameModel(d, runs, anchorId, id).Ok?
    ensures SameModel(d, runs, anchorId, id).value.runIds == Ids(Sort(runs, IdLeq))
  {
  }

  /** The registry stores exactly the packaged runs. */
  ghost predicate HoldsRuns(s: Registry, runs: seq<Run>) {
    s.runs.Keys == Keys(runs, RunId) && forall i | 0 <= i < |runs| :: runs[i].id in s.runs && s.runs[runs[i].id] == runs[i]
  }

  lemma RegistryImportsMatch(hash: EntryHash, s: Registry, runs: seq<Run>)
    requires Consistent(hash, s) && HoldsRuns(s, runs)
    ensures ImportsMatch(runs, s.events)
  {
    forall i | 0 <= i < |s.events| && IsImport(s.events[i].content) ensures FindRun(runs, s.events[i].content.subject).Some? {
      assert Backed(s, s.events[i].content);
      assert s.events[i].content.subject in Keys(runs, RunId);
      var k :| 0 <= k < |runs| && RunId(runs[k]) == s.events[i].content.subject;
    }
    forall i | 0 <= i < |runs| ensures LastImportFits(runs[i], s.events) {
      LastEntryIsBacked(hash, s, true, runs[i].id);
    }
  }

  lemma LastEntryIsBacked(hash: EntryHash, s: Registry, isImport: bool, subject: string)
    requires Consistent(hash, s)
    requires if isImport then subject in s.runs else subject in s.reports
    ensures var entry := LastEntry(s.events, isImport, subject);
            entry.Some? && entry.value.subject == subject && IsImport(entry.value) == isImport && Backed(s, entry.value)
  {
    assert HasEvent(s.events, isImport, subject);
    var entry := LastEntry(s.events, isImport, subject);
    var i :| 0 <= i < |s.events| && s.events[i].content == entry.value;
    assert Backed(s, s.events[i].content);
  }

  lemma RegistryReportsMatch(hash: EntryHash, s: Registry, curve: LongitudinalReport, cross: CrossReport)
    requires Consistent(hash, s) && curve.comparisonId != cross.comparisonId
    requires s.reports == map[curve.comparisonId := Curve(curve), cross.comparisonId := Cross(cross)]
    ensures ReportsMatch(curve, cross, s.events)
  {
    forall i | 0 <= i < |s.events| && !IsImport(s.events[i].content)
      ensures ExpectedReport(curve, cross, s.events[i].content.subject).Some?
    {
      assert Backed(s, s.events[i].content);
    }
    LastEntryIsBacked(hash, s, false, curve.comparisonId);
    LastEntryIsBacked(hash, s, false, cross.comparisonId);
  }

  lemma FindOwnAssessment(items: seq<Eligibility>, runs: seq<Run>, i: nat)
    requires |items| == |runs| && i < |runs| && forall k | 0 <= k < |runs| :: items[k] == Assess(runs[k])
    requires forall j, k | 0 <= j < k < |runs| :: runs[j].id != runs[k].id
    ensures FindEligibility(items, runs[i].id) == Some(Assess(runs[i]))
  {
    assert EligibilityId(items[i]) == runs[i].id;
    var found := FindEligibility(items, runs[i].id);
    if found.Some? {
      var j :| 0 <= j < |items| && items[j] == found.value;
      assert EligibilityId(items[j]) == runs[j].id;
    }
  }

  lemma AssessmentsMatch(runs: seq<Run>)
    requires KeysDistinct(runs, RunId)
    ensures EligibilityMatches(runs, Assessments(runs))
  {
    KeysBound(runs, RunId);
    assert forall j, k | 0 <= j < k < |runs| :: RunId(runs[j]) != RunId(runs[k]);
    forall i | 0 <= i < |runs| ensures FindEligibility(Assessments(runs), runs[i].id) == Some(Assess(runs[i])) {
      FindOwnAssessment(Assessments(runs), runs, i);
    }
    assert forall i | 0 <= i < |runs| :: EligibilityId(Assessments(runs)[i]) == RunId(runs[i]);
    SameKeys(Assessments(runs), runs);
  }

  lemma SameKeys(items: seq<Eligibility>, runs: seq<Run>)
    requires |items| == |runs| && forall i | 0 <= i < |runs| :: EligibilityId(items[i]) == RunId(runs[i])
    ensures Keys(items, EligibilityId) == Keys(runs, RunId)
  {
    forall k | k in Keys(items, EligibilityId) ensures k in Keys(runs, RunId) {
      var i :| 0 <= i < |items| && EligibilityId(items[i]) == k;
      assert RunId(runs[i]) == k;
    }
    forall k | k in Keys(runs, RunId) ensures k in Keys(items, EligibilityId) {
      var i :| 0 <= i < |runs| && RunId(runs[i]) == k;
      assert EligibilityId(items[i]) == k;
    }
  }

  lemma PartsFit(hash: EntryHash, suite: Suite, runs: seq<Run>, curve: LongitudinalReport, cross: CrossReport,
                 eligibility: seq<Eligibility>, log: EntryLog)
    requires runs != [] && KeysDistinct(runs, RunId) && forall i | 0 <= i < |runs| :: runs[i].contract.suite == suite
    requires Intact(hash, log) && ImportsMatch(runs, log) && ReportsMatch(curve, cross, log) && EligibilityMatches(runs, eligibility)
    ensures RecordsFit(hash, suite, runs, curve, cross, eligibility, log, CheckpointOf(log), AllSynthetic(runs))
  {
  }

  lemma RegistryMatches(hash: EntryHash, s: Registry, runs: seq<Run>, curve: LongitudinalReport, cross: CrossReport)
    requires curve.comparisonId != cross.comparisonId && Consistent(hash, s) && HoldsRuns(s, runs)
    requires s.reports == map[curve.comparisonId := Curve(curve), cross.comparisonId := Cross(cross)]
    ensures Intact(hash, s.events) && ImportsMatch(runs, s.events) && ReportsMatch(curve, cross, s.events)
  {
    RegistryImportsMatch(hash, s, runs);
    RegistryReportsMatch(hash, s, curve, cross);
  }

  lemma AssessedRecordsFit(hash: EntryHash, suite: Suite, runs: seq<Run>, curve: LongitudinalReport, cross: CrossReport, log: EntryLog)
    requires runs != [] && KeysDistinct(runs, RunId) && forall i | 0 <= i < |runs| :: runs[i].contract.suite == suite
    requires Intact(hash, log) && ImportsMatch(runs, log) && ReportsMatch(curve, cross, log)
    ensures RecordsFit(hash, suite, runs, curve, cross, Assessments(runs), log, CheckpointOf(log), AllSynthetic(runs))
  {
    AssessmentsMatch(runs);
    PartsFit(hash, suite, runs, curve, cross, Assessments(runs), log);
  }

  /**
   * Build, then verify. Take any history of imports and stores (retried or
   * refused calls included) that leaves exactly these runs and two reports,
   * the reports having been computed from some of the runs in any order. The
   * package assembled from it is accepted, and its log has one event per run.
   */
  lemma BuiltFromRegistryVerifies(h: Hashing, header: Header, suite: Suite, runs: seq<Run>, curveRuns: seq<Run>, crossRuns: seq<Run>,
                                  curve: LongitudinalReport, cross: CrossReport, calls: seq<RegistryCall>)
    requires runs != [] && KeysDistinct(runs, RunId) && forall i | 0 <= i < |runs| :: runs[i].contract.suite == suite
    requires (forall x | x in curveRuns :: x in runs) && (forall x | x in crossRuns :: x in runs)
    requires Longitudinal(h.digests, curveRuns, curve.comparisonId) == Ok(curve)
    requires SameModel(h.digests, crossRuns, cross.anchorId, cross.comparisonId) == Ok(cross)
    requires curve.comparisonId != cross.comparisonId
    requires HoldsRuns(History(h.entry, calls), runs)
    requires History(h.entry, calls).reports == map[curve.comparisonId := Curve(curve), cross.comparisonId := Cross(cross)]
    ensures var log := History(h.entry, calls).events;
            && Acceptable(h, Assemble(h, header, suite, runs, curve, cross, Assessments(runs), log, CheckpointOf(log)))
            && OncePerSubject(log)
  {
    var s := History(h.entry, calls);
    assert Consistent(h.entry, s) by {
      HistoryIsConsistent(h.entry, calls);
    }
    assert ReportsRecompute(h.digests, runs, curve, cross) by {
      ReportsRecomputeFromAnyOrder(h.digests, runs, curve, cross, curveRuns, crossRuns);
    }
    RegistryMatches(h.entry, s, runs, curve, cross);
    AssessedRecordsFit(h.entry, suite, runs, curve, cross, s.events);
    AssembledIsAcceptable(h, header, suite, runs, curve, cross, Assessments(runs), s.events);
  }

  lemma AssembledIsAcceptable(h: Hashing, header: Header, suite: Suite, runs: seq<Run>, curve: LongitudinalReport,
                              cross: CrossReport, eligibility: seq<Eligibility>, log: EntryLog)
    requires ReportsRecompute(h.digests, runs, curve, cross)
    requires RecordsFit(h.entry, suite, runs, curve, cross, eligibility, log, CheckpointOf(log), AllSynthetic(runs))
    ensures Acceptable(h, Assemble(h, header, suite, runs, curve, cross, eligibility, log, CheckpointOf(log)))
  {
    var m := Manifest(header, suite, runs, curve, cross, eligibility, log, CheckpointOf(log), AllSynthetic(runs), "");
    assert m.(hash := h.manifest(m)).(hash := "") == m;
  }

  // ---------------------------------------------------------------- what acceptance pins down

  /** Number of import events, or of report events, in a log. */
  function EventCount(log: EntryLog, imports: bool): nat {
    if log == [] then 0
    else EventCount(log[..|log| - 1], imports) + if IsImport(log[|log| - 1].content) == imports then 1 else 0
  }

  ghost predicate OnceEach(log: EntryLog, imports: bool) {
    forall i, j | 0 <= i < j < |log| && IsImport(log[i].content) == imports && IsImport(log[j].content) == imports ::
      log[i].content.subject != log[j].content.subject
  }

  function Subjects(log: EntryLog, imports: bool): set<string> {
    set i | 0 <= i < |log| && IsImport(log[i].content) == imports :: log[i].content.subject
  }

  lemma {:induction false} OnceIsCount(log: EntryLog, imports: bool)
    ensures |Subjects(log, imports)| <= EventCount(log, imports)
    ensures OnceEach(log, imports) <==> |Subjects(log, imports)| == EventCount(log, imports)
  {
    if log != [] {
      var n := |log| - 1;
      OnceIsCount(log[..n], imports);
      SubjectsOfLonger(log[..n], log[n], imports);
      assert log == log[..n] + [log[n]];
      if IsImport(log[n].content) == imports && log[n].content.subject in Subjects(log[..n], imports) {
        RepeatIsNotOnce(log[..n], log[n], imports);
      } else {
        OnceOfLonger(log[..n], log[n], imports);
      }
    }
  }

  lemma RepeatIsNotOnce(log: EntryLog, e: Event<Entry>, imports: bool)
    requires IsImport(e.content) == imports && e.content.subject in Subjects(log, imports)
    ensures !OnceEach(log + [e], imports)
  {
    var i :| 0 <= i < |log| && IsImport(log[i].content) == imports && log[i].content.subject == e.content.subject;
    var longer := log + [e];
    assert longer[i] == log[i] && longer[|log|] == e;
  }

  lemma SubjectsOfLonger(log: EntryLog, e: Event<Entry>, imports: bool)
    ensures Subjects(log + [e], imports)
         == Subjects(log, imports) + if IsImport(e.content) == imports then {e.content.subject} else {}
  {
    var longer := log + [e];
    assert longer[|log|] == e;
    forall id | id in Subjects(log, imports) ensures id in Subjects(longer, imports) {
      var i :| 0 <= i < |log| && IsImport(log[i].content) == imports && log[i].content.subject == id;
      assert longer[i] == log[i];
    }
  }

  lemma OnceOfLonger(log: EntryLog, e: Event<Entry>, imports: bool)
    requires !(IsImport(e.content) == imports && e.content.subject in Subjects(log, imports))
    ensures OnceEach(log + [e], imports) <==> OnceEach(log, imports)
  {
    var longer := log + [e];
    assert longer[|log|] == e;
    assert forall i | 0 <= i < |log| :: longer[i] == log[i];
    assert forall i | 0 <= i < |log| && IsImport(log[i].content) == imports :: log[i].content.subject in Subjects(log, imports);
    if OnceEach(longer, imports) {
      forall i, j | 0 <= i < j < |log| && IsImport(log[i].content) == imports && IsImport(log[j].content) == imports
        ensures log[i].content.subject != log[j].content.subject
      {
        assert longer[i] == log[i] && longer[j] == log[j];
      }
    }
  }

  /**
   * The check compares sets of ids, so what an accepted package guarantees is
   * at least one import per run. "Exactly one import per run" holds of an
   * accepted package if and only if it has as many import events as runs.
   */
  lemma ExactlyOneImportIffCounted(h: Hashing, m: Manifest)
    requires Acceptable(h, m)
    ensures Subjects(m.events, true) == Keys(m.runs, RunId) && EventCount(m.events, true) >= |m.runs|
    ensures OnceEach(m.events, true) <==> EventCount(m.events, true) == |m.runs|
  {
    OnceIsCount(m.events, true);
    MatchedIds(m.runs, m.events);
  }

  lemma MatchedIds(runs: seq<Run>, log: EntryLog)
    requires ImportsMatch(runs, log)
    ensures Subjects(log, true) == Keys(runs, RunId)
  {
    forall id | id in Subjects(log, true) ensures id in Keys(runs, RunId) {
      var i :| 0 <= i < |log| && IsImport(log[i].content) && log[i].content.subject == id;
      var run := FindRun(runs, id).value;
      var k :| 0 <= k < |runs| && runs[k] == run;
      assert RunId(runs[k]) == id;
    }
    forall id | id in Keys(runs, RunId) ensures id in Subjects(log, true) {
      var k :| 0 <= k < |runs| && RunId(runs[k]) == id;
      assert LastImportFits(runs[k], log);
      var i :| 0 <= i < |log| && log[i].content == LastEntry(log, true, id).value;
    }
  }

  function ReportIds(curve: LongitudinalReport, cross: CrossReport): set<string> {
    {curve.comparisonId, cross.comparisonId}
  }

  /**
   * Likewise for the comparison records: every packaged report is logged at
   * least once, and "the exact comparison records" is literally true if and
   * only if there are as many report events as report ids.
   */
  lemma ExactReportRecordsIffCounted(h: Hashing, m: Manifest)
    requires Acceptable(h, m)
    ensures var ids := ReportIds(m.longitudinal, m.sameModel);
            && Subjects(m.events, false) == ids && EventCount(m.events, false) >= |ids|
            && (OnceEach(m.events, false) <==> EventCount(m.events, false) == |ids|)
  {
    OnceIsCount(m.events, false);
    MatchedReportIds(m.longitudinal, m.sameModel, m.events);
  }

  lemma MatchedReportIds(curve: LongitudinalReport, cross: CrossReport, log: EntryLog)
    requires ReportsMatch(curve, cross, log)
    ensures Subjects(log, false) == ReportIds(curve, cross)
  {
    forall id | id in ReportIds(curve, cross) ensures id in Subjects(log, false) {
      assert LastReportFits(curve, cross, id, log);
      var i :| 0 <= i < |log| && log[i].content == LastEntry(log, false, id).value;
    }
  }

  /**
   * And for the assessments: each run has at least one, and "one eligibility
   * assessment per run" is literally true if and only if there are as many
   * assessments as runs.
   */
  lemma OneAssessmentIffCounted(h: Hashing, m: Manifest)
    requires Acceptable(h, m)
    ensures Keys(m.eligibility, EligibilityId) == Keys(m.runs, RunId) && |m.eligibility| >= |m.runs|
    ensures KeysDistinct(m.eligibility, EligibilityId) <==> |m.eligibility| == |m.runs|
  {
    KeysBound(m.eligibility, EligibilityId);
  }

  lemma ForgedStillMatches(runs: seq<Run>, items: seq<Eligibility>, forged: Eligibility, k: nat)
    requires EligibilityMatches(runs, items) && k < |runs| && forged.evidenceId == runs[k].id
    ensures EligibilityMatches(runs, [forged] + items)
  {
    var more := [forged] + items;
    forall i | 0 <= i < |runs| ensures FindEligibility(more, runs[i].id) == Some(Assess(runs[i])) {
      FirstIsOverridden(forged, items, EligibilityId, runs[i].id);
    }
    assert RunId(runs[k]) in Keys(runs, RunId);
    forall id | id in Keys(more, EligibilityId) ensures id in Keys(runs, RunId) {
      var i :| 0 <= i < |more| && EligibilityId(more[i]) == id;
      if i > 0 {
        assert EligibilityId(items[i - 1]) in Keys(items, EligibilityId);
      }
    }
    forall id | id in Keys(runs, RunId) ensures id in Keys(more, EligibilityId) {
      var i :| 0 <= i < |items| && EligibilityId(items[i]) == id;
      assert more[i + 1] == items[i];
    }
  }

  /** The count can exceed the runs: an assessment of a packaged run with any content may stand before the true one. */
  lemma ForgedAssessmentIsAccepted(h: Hashing, m: Manifest, k: nat, forged: Eligibility)
    requires Acceptable(h, m) && k < |m.runs| && forged.evidenceId == m.runs[k].id
    ensures Acceptable(h, Assemble(h, m.header, m.suite, m.runs, m.longitudinal, m.sameModel, [forged] + m.eligibility, m.events, m.checkpoint))
  {
    ForgedStillMatches(m.runs, m.eligibility, forged, k);
    PartsFit(h.entry, m.suite, m.runs, m.longitudinal, m.sameModel, [forged] + m.eligibility, m.events);
    AssembledIsAcceptable(h, m.header, m.suite, m.runs, m.longitudinal, m.sameModel, [forged] + m.eligibility, m.events);
  }

  function ImportOf(run: Run, facts: Facts, eventId: string): Entry {
    Entry(eventId, RunImported, run.id, facts, "", 0)
  }

  /**
   * Only the last import event of a run is read. Adding to an accepted log an
   * import of a packaged run with any facts whatever, and then one with the
   * run's own facts, with the checkpoint and package hash taken anew, gives
   * an accepted package with more imports than runs.
   */
  lemma ContradictedImportIsAccepted(h: Hashing, m: Manifest, k: nat, facts: Facts, eventId: string, laterId: string)
    requires Acceptable(h, m) && k < |m.runs|
    ensures var run := m.runs[k];
            var log := Append(h.entry, Append(h.entry, m.events, ImportOf(run, facts, eventId)), ImportOf(run, FactsOfRun(run), laterId));
            && Acceptable(h, Assemble(h, m.header, m.suite, m.runs, m.longitudinal, m.sameModel, m.eligibility, log, CheckpointOf(log)))
            && log[|m.events|].content == ImportOf(run, facts, eventId) && EventCount(log, true) >= |m.runs| + 2
  {
    var run := m.runs[k];
    var once := Append(h.entry, m.events, ImportOf(run, facts, eventId));
    var log := Append(h.entry, once, ImportOf(run, FactsOfRun(run), laterId));
    AppendKeepsIntact(h.entry, m.events, ImportOf(run, facts, eventId));
    AppendKeepsIntact(h.entry, once, ImportOf(run, FactsOfRun(run), laterId));
    ExactlyOneImportIffCounted(h, m);
    ImportsStillMatch(m.runs, m.events, once[|m.events|], log[|once|], k);
    ReportsStillMatch(m.longitudinal, m.sameModel, m.events, once[|m.events|]);
    ReportsStillMatch(m.longitudinal, m.sameModel, once, log[|once|]);
    PartsFit(h.entry, m.suite, m.runs, m.longitudinal, m.sameModel, m.eligibility, log);
    AssembledIsAcceptable(h, m.header, m.suite, m.runs, m.longitudinal, m.sameModel, m.eligibility, log);
  }

  lemma LastOfLonger(log: EntryLog, e: Event<Entry>, isImport: bool, subject: string)
    ensures LastEntry(log + [e], isImport, subject)
         == if IsImport(e.content) == isImport && e.content.subject == subject then Some(e.content) else LastEntry(log, isImport, subject)
  {
    assert (log + [e])[..|log|] == log;
  }

  lemma ImportsStillMatch(runs: seq<Run>, log: EntryLog, f: Event<Entry>, e: Event<Entry>, k: nat)
    requires ImportsMatch(runs, log) && KeysDistinct(runs, RunId) && k < |runs|
    requires f.content.kind == e.content.kind == RunImported && f.content.subject == e.content.subject == runs[k].id
    requires e.content.facts == FactsOfRun(runs[k])
    ensures ImportsMatch(runs, log + [f] + [e])
  {
    var longer := log + [f] + [e];
    FindByOwnId(runs, runs[k]);
    forall i | 0 <= i < |longer| && IsImport(longer[i].content) ensures FindRun(runs, longer[i].content.subject).Some? {
      assert i < |log| ==> longer[i] == log[i];
    }
    forall i | 0 <= i < |runs| ensures LastImportFits(runs[i], longer) {
      assert LastImportFits(runs[i], log);
      LastOfLonger(log, f, true, runs[i].id);
      LastOfLonger(log + [f], e, true, runs[i].id);
      FindByOwnId(runs, runs[i]);
    }
  }

  lemma ReportsStillMatch(curve: LongitudinalReport, cross: CrossReport, log: EntryLog, e: Event<Entry>)
    requires ReportsMatch(curve, cross, log) && e.content.kind == RunImported
    ensures ReportsMatch(curve, cross, log + [e])
  {
    LastOfLonger(log, e, false, curve.comparisonId);
    LastOfLonger(log, e, false, cross.comparisonId);
    forall i | 0 <= i < |log + [e]| && !IsImport((log + [e])[i].content)
      ensures ExpectedReport(curve, cross, (log + [e])[i].content.subject).Some?
    {
      assert (log + [e])[i] == log[i];
    }
  }
}
