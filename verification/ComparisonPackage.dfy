/** The reproducible comparison package: build it, and verify it by recomputing everything it claims. */
module ComparisonPackage {
  import opened Prelude
  import opened Ordering
  import opened AuditChain
  import opened BenchmarkModels
  import opened BenchmarkComparison
  import opened ComparisonTheorems
  import opened EvidenceRegistry

  // ---------------------------------------------------------------- submission prerequisites

  datatype Eligibility = Eligibility(
    evidenceId: string, manifestAttested: bool, defaultSettings: bool, completeCoverage: bool, minimumTrials: bool,
    publicUpload: bool, trajectories: bool, synthetic: bool, met: bool, reasons: seq<string>)

  function Reason(passed: bool, reason: string): seq<string> {
    if passed then [] else [reason]
  }

  /** Suites carry the pinned dataset and commits by construction, so that check always passes here. */
  function Assess(run: Run): Eligibility {
    var c := run.contract;
    var defaults := c.defaultsAttested && Near(c.timeoutMultiplier, 1.0) && !c.agentTimeoutOverride
                    && !c.verifierTimeoutOverride && !c.resourceOverrides;
    var coverage := |run.aggregates| == |c.suite.tasks| && run.totalTrials == |c.suite.tasks| * c.trialsPerTask;
    var uploaded := c.upload && c.public && c.hubUri.Some?;
    var reasons := Reason(c.suite.manifestAttested, "canonical_task_manifest_not_attested")
                   + Reason(defaults, "default_execution_settings_not_attested")
                   + Reason(coverage, "task_coverage_incomplete")
                   + Reason(c.trialsPerTask >= 5, "fewer_than_five_trials_per_task")
                   + Reason(uploaded, "public_uploaded_harbor_job_missing")
                   + Reason(c.trajectories, "reviewable_trajectories_missing")
                   + Reason(!c.source.SyntheticFixture?, "synthetic_fixture_is_not_submission_evidence");
    Eligibility(run.id, c.suite.manifestAttested, defaults, coverage, c.trialsPerTask >= 5, uploaded, c.trajectories,
                c.source.SyntheticFixture?, reasons == [], reasons)
  }

  function EligibilityId(e: Eligibility): string { e.evidenceId }

  // ---------------------------------------------------------------- the package

  datatype Header = Header(
    packageId: string, createdAt: int, frameworkVersion: string, sourceRepository: string, sourceCommit: string, lockHash: string)

  datatype Manifest = Manifest(
    header: Header, suite: Suite, runs: seq<Run>, longitudinal: LongitudinalReport, sameModel: CrossReport,
    eligibility: seq<Eligibility>, events: EntryLog, checkpoint: Checkpoint, synthetic: bool, hash: string)

  /** Everything the package relies on from outside: the digests of reports, events and manifests. */
  datatype Hashing = Hashing(digests: Digests, entry: EntryHash, manifest: Manifest -> string)

  predicate AllSynthetic(runs: seq<Run>) {
    forall i | 0 <= i < |runs| :: runs[i].contract.source.SyntheticFixture?
  }

  function Assemble(h: Hashing, header: Header, suite: Suite, runs: seq<Run>, longitudinal: LongitudinalReport,
                    sameModel: CrossReport, eligibility: seq<Eligibility>, events: EntryLog, checkpoint: Checkpoint): Manifest
  {
    var m := Manifest(header, suite, runs, longitudinal, sameModel, eligibility, events, checkpoint, AllSynthetic(runs), "");
    m.(hash := h.manifest(m))
  }

  predicate AllPresent(runs: seq<Run>, ids: seq<string>) {
    forall i | 0 <= i < |ids| :: FindRun(runs, ids[i]).Some?
  }

  /** `tuple(by_id[run_id] for run_id in run_ids)`. */
  function Resolve(runs: seq<Run>, ids: seq<string>): seq<Run>
    requires AllPresent(runs, ids)
  {
    seq(|ids|, i requires 0 <= i < |ids| => FindRun(runs, ids[i]).value)
  }

  function FindEligibility(items: seq<Eligibility>, id: string): Option<Eligibility> {
    Lookup(items, EligibilityId, id)
  }

  /** The entry a dictionary keyed by subject keeps: the last one. */
  function LastEntry(log: EntryLog, isImport: bool, subject: string): (found: Option<Entry>)
    ensures found.Some? ==> found.value.subject == subject && IsImport(found.value) == isImport
    ensures found.Some? ==> exists i :: 0 <= i < |log| && log[i].content == found.value
    ensures found.None? <==> !HasEvent(log, isImport, subject)
  {
    if log == [] then None
    else
      var n := |log| - 1;
      var last := log[n].content;
      if IsImport(last) == isImport && last.subject == subject then Some(last)
      else
        var earlier := LastEntry(log[..n], isImport, subject);
        earlier
  }

  predicate EligibilityMatches(runs: seq<Run>, eligibility: seq<Eligibility>) {
    && Keys(eligibility, EligibilityId) == Keys(runs, RunId)
    && forall i | 0 <= i < |runs| :: FindEligibility(eligibility, runs[i].id) == Some(Assess(runs[i]))
  }

  /** Every import event names a packaged run. */
  ghost predicate ImportsKnown(runs: seq<Run>, log: EntryLog) {
    forall i | 0 <= i < |log| && IsImport(log[i].content) :: FindRun(runs, log[i].content.subject).Some?
  }

  /** The last import event of a run carries its facts. */
  predicate LastImportFits(run: Run, log: EntryLog) {
    var entry := LastEntry(log, true, run.id);
    entry.Some? && entry.value.facts == FactsOfRun(run)
  }

  ghost predicate ImportsMatch(runs: seq<Run>, log: EntryLog) {
    ImportsKnown(runs, log) && forall i | 0 <= i < |runs| :: LastImportFits(runs[i], log)
  }

  /** The expected reports by id; equal ids collapse to the same-model report, as in a dictionary display. */
  function ExpectedReport(curve: LongitudinalReport, cross: CrossReport, id: string): Option<Report> {
    if id == cross.comparisonId then Some(Cross(cross))
    else if id == curve.comparisonId then Some(Curve(curve))
    else None
  }

  predicate LastReportFits(curve: LongitudinalReport, cross: CrossReport, id: string, log: EntryLog) {
    var entry, expected := LastEntry(log, false, id), ExpectedReport(curve, cross, id);
    entry.Some? && expected.Some? && entry.value.facts == FactsOfReport(expected.value)
  }

  ghost predicate ReportsKnown(curve: LongitudinalReport, cross: CrossReport, log: EntryLog) {
    forall i | 0 <= i < |log| && !IsImport(log[i].content) :: ExpectedReport(curve, cross, log[i].content.subject).Some?
  }

  ghost predicate ReportsMatch(curve: LongitudinalReport, cross: CrossReport, log: EntryLog) {
    && ReportsKnown(curve, cross, log)
    && LastReportFits(curve, cross, curve.comparisonId, log) && LastReportFits(curve, cross, cross.comparisonId, log)
  }

  ghost predicate ReportsRecompute(d: Digests, runs: seq<Run>, curve: LongitudinalReport, cross: CrossReport) {
    && AllPresent(runs, curve.runIds) && AllPresent(runs, cross.runIds)
    && Longitudinal(d, Resolve(runs, curve.runIds), curve.comparisonId) == Ok(curve)
    && SameModel(d, Resolve(runs, cross.runIds), cross.anchorId, cross.comparisonId) == Ok(cross)
  }

  /** The runs, assessments and audit log of a package fit together. */
  ghost predicate RecordsFit(hash: EntryHash, suite: Suite, runs: seq<Run>, curve: LongitudinalReport, cross: CrossReport,
                             eligibility: seq<Eligibility>, log: EntryLog, checkpoint: Checkpoint, synthetic: bool)
  {
    && runs != [] && KeysDistinct(runs, RunId)
    && (forall i | 0 <= i < |runs| :: runs[i].contract.suite == suite)
    && synthetic == AllSynthetic(runs)
    && EligibilityMatches(runs, eligibility)
    && Accepted(hash, log, Some(checkpoint))
    && ImportsMatch(runs, log)
    && ReportsMatch(curve, cross, log)
  }

  /** What `verify` accepts: the package hash, the recomputed reports and the records. */
  ghost predicate Acceptable(h: Hashing, m: Manifest) {
    && m.hash == h.manifest(m.(hash := ""))
    && ReportsRecompute(h.digests, m.runs, m.longitudinal, m.sameModel)
    && RecordsFit(h.entry, m.suite, m.runs, m.longitudinal, m.sameModel, m.eligibility, m.events, m.checkpoint, m.synthetic)
  }

  datatype PackageError =
    | HashMismatch | NoRuns | DuplicateRuns | SuiteDiffers | SyntheticNotDerived | MissingRun | LongitudinalDiffers
    | SameModelDiffers | EligibilityDiffers | AuditRejected | ImportsDiffer | ReportEventsDiffer

  class BenchmarkComparisonPackageManager {
    const hashing: Hashing

    constructor (hashing: Hashing)
      ensures this.hashing == hashing
    {
      this.hashing := hashing;
    }

    /** The loops of `_verify_audit` after the chain itself was accepted. */
    method CheckEvents(m: Manifest) returns (r: Option<PackageError>)
      ensures r.None? <==> ImportsMatch(m.runs, m.events) && ReportsMatch(m.longitudinal, m.sameModel, m.events)
    {
      var log := m.events;
      if exists i | 0 <= i < |log| :: IsImport(log[i].content) && FindRun(m.runs, log[i].content.subject).None? {
        return Some(ImportsDiffer);
      }
      for i := 0 to |m.runs|
        invariant forall j | 0 <= j < i :: LastImportFits(m.runs[j], log)
      {
        var entry := LastEntry(log, true, m.runs[i].id);
        if entry.None? || entry.value.facts != FactsOfRun(m.runs[i]) {
          assert !LastImportFits(m.runs[i], log);
          return Some(ImportsDiffer);
        }
      }
      if exists i | 0 <= i < |log| ::
          !IsImport(log[i].content) && ExpectedReport(m.longitudinal, m.sameModel, log[i].content.subject).None? {
        return Some(ReportEventsDiffer);
      }
      if !LastReportFits(m.longitudinal, m.sameModel, m.longitudinal.comparisonId, log)
         || !LastReportFits(m.longitudinal, m.sameModel, m.sameModel.comparisonId, log) {
        return Some(ReportEventsDiffer);
      }
      return None;
    }

    method CheckReports(m: Manifest) returns (r: Option<PackageError>)
      ensures r.None? <==> ReportsRecompute(hashing.digests, m.runs, m.longitudinal, m.sameModel)
    {
      if !AllPresent(m.runs, m.longitudinal.runIds) || !AllPresent(m.runs, m.sameModel.runIds) {
        return Some(MissingRun);
      }
      var curve := Longitudinal(hashing.digests, Resolve(m.runs, m.longitudinal.runIds), m.longitudinal.comparisonId);
      if curve != Ok(m.longitudinal) {
        return Some(LongitudinalDiffers);
      }
      var cross := SameModelCrossAgent(hashing.digests, Resolve(m.runs, m.sameModel.runIds), m.sameModel.anchorId,
                                       m.sameModel.comparisonId);
      if cross != Ok(m.sameModel) {
        return Some(SameModelDiffers);
      }
      return None;
    }

    /** `verify`: the first check that fails, or none. */
    method Verify(m: Manifest) returns (r: Option<PackageError>)
      ensures r.None? <==> Acceptable(hashing, m)
    {
      if m.hash != hashing.manifest(m.(hash := "")) {
        return Some(HashMismatch);
      }
      if m.runs == [] {
        return Some(NoRuns);
      }
      if !KeysDistinct(m.runs, RunId) {
        return Some(DuplicateRuns);
      }
      if exists i | 0 <= i < |m.runs| :: m.runs[i].contract.suite != m.suite {
        return Some(SuiteDiffers);
      }
      if m.synthetic != AllSynthetic(m.runs) {
        return Some(SyntheticNotDerived);
      }
      r := CheckReports(m);
      if r.Some? {
        return;
      }
      if !EligibilityMatches(m.runs, m.eligibility) {
        return Some(EligibilityDiffers);
      }
      var verdict := VerifyAudit(hashing.entry, m.events, Some(m.checkpoint));
      if verdict != Verified {
        return Some(AuditRejected);
      }
      r := CheckEvents(m);
    }

    /** `build`: assemble the manifest, then refuse it unless it verifies. */
    method Build(header: Header, suite: Suite, runs: seq<Run>, longitudinal: LongitudinalReport, sameModel: CrossReport,
                 eligibility: seq<Eligibility>, events: EntryLog, checkpoint: Checkpoint)
      returns (r: Result<Manifest, PackageError>)
      ensures var m := Assemble(hashing, header, suite, runs, longitudinal, sameModel, eligibility, events, checkpoint);
              (r.Ok? <==> Acceptable(hashing, m)) && (r.Ok? ==> r.value == m)
    {
      var provisional := Manifest(header, suite, runs, longitudinal, sameModel, eligibility, events, checkpoint,
                                  AllSynthetic(runs), "");
      var manifest := provisional.(hash := hashing.manifest(provisional));
      var refused := Verify(manifest);
      if refused.Some? {
        return Err(refused.value);
      }
      return Ok(manifest);
    }
  }
}
