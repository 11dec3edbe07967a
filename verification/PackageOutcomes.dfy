/** When a comparison package is accepted, part by part, without the lookups the checker uses. */
module PackageOutcomes {
  import opened Prelude
  import opened Ordering
  import opened AuditChain
  import opened BenchmarkModels
  import opened BenchmarkComparison
  import opened EvidenceRegistry
  import opened ComparisonPackage
  import opened PackageTheorems

  // ---------------------------------------------------------------- submission prerequisites

  /** Whether the run executed under attested default settings. */
  predicate DefaultSettings(c: Contract) {
    && c.defaultsAttested && -0.000000000001 <= c.timeoutMultiplier - 1.0 <= 0.000000000001
    && !c.agentTimeoutOverride && !c.verifierTimeoutOverride && !c.resourceOverrides
  }

  predicate FullCoverage(run: Run) {
    |run.aggregates| == |run.contract.suite.tasks| && run.totalTrials == |run.contract.suite.tasks| * run.contract.trialsPerTask
  }

  predicate PubliclyUploaded(c: Contract) {
    c.upload && c.public && c.hubUri.Some?
  }

  function Unless(met: bool, reason: string): seq<string> {
    if met then [] else [reason]
  }

  /** One reason for each prerequisite the run does not meet. */
  function ReasonsFor(run: Run): seq<string> {
    var c := run.contract;
    Unless(c.suite.manifestAttested, "canonical_task_manifest_not_attested")
    + Unless(DefaultSettings(c), "default_execution_settings_not_attested")
    + Unless(FullCoverage(run), "task_coverage_incomplete")
    + Unless(c.trialsPerTask >= 5, "fewer_than_five_trials_per_task")
    + Unless(PubliclyUploaded(c), "public_uploaded_harbor_job_missing")
    + Unless(c.trajectories, "reviewable_trajectories_missing")
    + Unless(c.source == ExternalHarbor, "synthetic_fixture_is_not_submission_evidence")
  }

  /** Every prerequisite of an official submission. */
  predicate MeetsAll(run: Run) {
    var c := run.contract;
    && c.suite.manifestAttested && DefaultSettings(c) && FullCoverage(run) && c.trialsPerTask >= 5
    && PubliclyUploaded(c) && c.trajectories && c.source == ExternalHarbor
  }

  /** An assessment says which prerequisites a run meets, and gives one reason for each it does not. */
  ghost predicate AssessmentTells(e: Eligibility, run: Run) {
    var c := run.contract;
    && e.evidenceId == run.id
    && (e.manifestAttested <==> c.suite.manifestAttested) && (e.defaultSettings <==> DefaultSettings(c))
    && (e.completeCoverage <==> FullCoverage(run)) && (e.minimumTrials <==> c.trialsPerTask >= 5)
    && (e.publicUpload <==> PubliclyUploaded(c)) && (e.trajectories <==> c.trajectories)
    && (e.synthetic <==> c.source == SyntheticFixture)
    && (e.met <==> MeetsAll(run))
    && e.reasons == ReasonsFor(run)
  }

  lemma AnyReasonShows(a: seq<string>, b: seq<string>, c: seq<string>, d: seq<string>, e: seq<string>, f: seq<string>, g: seq<string>)
    ensures a + b + c + d + e + f + g == [] <==> |a| == |b| == |c| == |d| == |e| == |f| == |g| == 0
  {
    assert |a + b + c + d + e + f + g| == |a| + |b| + |c| + |d| + |e| + |f| + |g|;
  }

  lemma NoReasonExactlyWhen(run: Run)
    ensures ReasonsFor(run) == [] <==> MeetsAll(run)
  {
    var c := run.contract;
    AnyReasonShows(Unless(c.suite.manifestAttested, "canonical_task_manifest_not_attested"),
                   Unless(DefaultSettings(c), "default_execution_settings_not_attested"),
                   Unless(FullCoverage(run), "task_coverage_incomplete"),
                   Unless(c.trialsPerTask >= 5, "fewer_than_five_trials_per_task"),
                   Unless(PubliclyUploaded(c), "public_uploaded_harbor_job_missing"),
                   Unless(c.trajectories, "reviewable_trajectories_missing"),
                   Unless(c.source == ExternalHarbor, "synthetic_fixture_is_not_submission_evidence"));
  }

  lemma AssessGivesReasons(run: Run)
    ensures Assess(run).reasons == ReasonsFor(run) && (Assess(run).met <==> ReasonsFor(run) == [])
  {
  }

  lemma AssessmentIsDetermined(e: Eligibility, f: Eligibility, run: Run)
    requires AssessmentTells(e, run) && AssessmentTells(f, run)
    ensures e == f
  {
  }

  /** Exactly one record tells this about a run, and it is the one the assessment computes. */
  lemma AssessmentExactlyWhen(e: Eligibility, run: Run)
    ensures e == Assess(run) <==> AssessmentTells(e, run)
  {
    AssessGivesReasons(run);
    NoReasonExactlyWhen(run);
    assert AssessmentTells(Assess(run), run);
    if AssessmentTells(e, run) {
      AssessmentIsDetermined(e, Assess(run), run);
    }
  }

  // ---------------------------------------------------------------- the last record of each subject

  /** Position `j` holds the last assessment of this run. */
  ghost predicate LastAssessment(items: seq<Eligibility>, id: string, j: nat) {
    && j < |items| && items[j].evidenceId == id
    && forall l | j < l < |items| :: items[l].evidenceId != id
  }

  /** Position `i` holds the last event of this kind about this subject. */
  ghost predicate LastEvent(log: EntryLog, imports: bool, subject: string, i: nat) {
    && i < |log| && Concerns(log[i].content, imports, subject)
    && forall l | i < l < |log| :: !Concerns(log[l].content, imports, subject)
  }

  predicate Concerns(e: Entry, imports: bool, subject: string) {
    (e.kind == RunImported <==> imports) && e.subject == subject
  }

  lemma {:induction false} FoundIsLast<T, K>(s: seq<T>, key: T -> K, k: K)
    ensures Find(s, key, k).Some? ==> forall l | Find(s, key, k).value < l < |s| :: key(s[l]) != k
  {
    if s != [] && key(s[|s| - 1]) != k {
      FoundIsLast(s[..|s| - 1], key, k);
    }
  }

  lemma FoundAssessmentIsLast(items: seq<Eligibility>, id: string)
    ensures match FindEligibility(items, id)
            case Some(e) => exists j: nat :: LastAssessment(items, id, j) && items[j] == e
            case None => forall j | 0 <= j < |items| :: items[j].evidenceId != id
  {
    var found := Find(items, EligibilityId, id);
    FoundIsLast(items, EligibilityId, id);
    if found.Some? {
      forall l | found.value < l < |items| ensures items[l].evidenceId != id {
        assert EligibilityId(items[l]) != id;
      }
      assert LastAssessment(items, id, found.value);
    } else {
      assert forall j | 0 <= j < |items| :: EligibilityId(items[j]) != id;
    }
  }

  lemma {:induction false} LastEntryIsLast(log: EntryLog, imports: bool, subject: string)
    ensures match LastEntry(log, imports, subject)
            case Some(e) => exists i: nat :: LastEvent(log, imports, subject, i) && log[i].content == e
            case None => forall i | 0 <= i < |log| :: !Concerns(log[i].content, imports, subject)
  {
    if log != [] {
      var n := |log| - 1;
      LastEntryIsLast(log[..n], imports, subject);
      if Concerns(log[n].content, imports, subject) {
        assert LastEvent(log, imports, subject, n);
      } else if LastEntry(log[..n], imports, subject).Some? {
        var i: nat :| LastEvent(log[..n], imports, subject, i) && log[..n][i].content == LastEntry(log[..n], imports, subject).value;
        assert LastEvent(log, imports, subject, i);
      }
    }
  }

  // ---------------------------------------------------------------- the parts

  ghost predicate Packaged(runs: seq<Run>, id: string) {
    exists k | 0 <= k < |runs| :: runs[k].id == id
  }

  ghost predicate AssessedLast(items: seq<Eligibility>, run: Run) {
    exists j: nat :: LastAssessment(items, run.id, j) && AssessmentTells(items[j], run)
  }

  ghost predicate HasAssessment(items: seq<Eligibility>, id: string) {
    exists j | 0 <= j < |items| :: items[j].evidenceId == id
  }

  /** The last assessment of every run is the right one, and no assessment is about anything else. */
  ghost predicate AssessmentsTell(runs: seq<Run>, items: seq<Eligibility>) {
    && (forall j | 0 <= j < |items| :: Packaged(runs, items[j].evidenceId))
    && (forall k | 0 <= k < |runs| :: AssessedLast(items, runs[k]))
  }

  lemma AssessmentsExactlyWhen(runs: seq<Run>, items: seq<Eligibility>)
    ensures EligibilityMatches(runs, items) <==> AssessmentsTell(runs, items)
  {
    forall k | 0 <= k < |runs|
      ensures FindEligibility(items, runs[k].id) == Some(Assess(runs[k]))
              <==> AssessedLast(items, runs[k])
    {
      OneAssessment(items, runs[k]);
    }
    SameIds(runs, items);
    forall k | 0 <= k < |runs| && AssessedLast(items, runs[k]) ensures HasAssessment(items, runs[k].id) {
    }
  }

  lemma OneAssessment(items: seq<Eligibility>, run: Run)
    ensures FindEligibility(items, run.id) == Some(Assess(run))
            <==> AssessedLast(items, run)
  {
    FoundAssessmentIsLast(items, run.id);
    if j: nat :| LastAssessment(items, run.id, j) && AssessmentTells(items[j], run) {
      AssessmentExactlyWhen(items[j], run);
      var i: nat :| LastAssessment(items, run.id, i) && items[i] == FindEligibility(items, run.id).value;
      assert i == j;
    }
    if FindEligibility(items, run.id) == Some(Assess(run)) {
      AssessmentExactlyWhen(Assess(run), run);
      var i: nat :| LastAssessment(items, run.id, i) && items[i] == FindEligibility(items, run.id).value;
    }
  }

  lemma SameIds(runs: seq<Run>, items: seq<Eligibility>)
    ensures Keys(items, EligibilityId) == Keys(runs, RunId) <==>
              && (forall j | 0 <= j < |items| :: Packaged(runs, items[j].evidenceId))
              && (forall k | 0 <= k < |runs| :: HasAssessment(items, runs[k].id))
  {
    forall id ensures id in Keys(runs, RunId) <==> Packaged(runs, id) {
      InKeys(runs, id);
    }
    forall id ensures id in Keys(items, EligibilityId) <==> HasAssessment(items, id) {
      InItemKeys(items, id);
    }
    KeysAgree(runs, items);
  }

  lemma KeysAgree(runs: seq<Run>, items: seq<Eligibility>)
    requires forall id :: id in Keys(runs, RunId) <==> Packaged(runs, id)
    requires forall id :: id in Keys(items, EligibilityId) <==> HasAssessment(items, id)
    ensures Keys(items, EligibilityId) == Keys(runs, RunId) <==>
              && (forall j | 0 <= j < |items| :: Packaged(runs, items[j].evidenceId))
              && (forall k | 0 <= k < |runs| :: HasAssessment(items, runs[k].id))
  {
    var a, b := Keys(items, EligibilityId), Keys(runs, RunId);
    if a == b {
      forall j | 0 <= j < |items| ensures Packaged(runs, items[j].evidenceId) {
        assert HasAssessment(items, items[j].evidenceId);
      }
      forall k | 0 <= k < |runs| ensures HasAssessment(items, runs[k].id) {
        assert Packaged(runs, runs[k].id);
      }
    }
  }

  lemma InItemKeys(items: seq<Eligibility>, id: string)
    ensures id in Keys(items, EligibilityId) <==> HasAssessment(items, id)
  {
    if j :| 0 <= j < |items| && items[j].evidenceId == id {
      assert EligibilityId(items[j]) == id;
    }
  }

  lemma InKeys(runs: seq<Run>, id: string)
    ensures id in Keys(runs, RunId) <==> Packaged(runs, id)
  {
    if k :| 0 <= k < |runs| && runs[k].id == id {
      assert RunId(runs[k]) == id;
    }
  }

  /** The last import event of every run carries its three hashes, and no import is of anything else. */
  ghost predicate ImportsTell(runs: seq<Run>, log: EntryLog) {
    && (forall i | 0 <= i < |log| && log[i].content.kind == RunImported :: Packaged(runs, log[i].content.subject))
    && (forall k | 0 <= k < |runs| ::
          EventTells(log, true, runs[k].id, RunFacts(runs[k].hash, runs[k].sourceSha, runs[k].contract.hash)))
  }

  ghost predicate EventTells(log: EntryLog, imports: bool, subject: string, facts: Facts) {
    exists i: nat :: LastEvent(log, imports, subject, i) && log[i].content.facts == facts
  }

  lemma EventExactlyWhen(log: EntryLog, imports: bool, subject: string, facts: Facts)
    ensures EventTells(log, imports, subject, facts)
            <==> LastEntry(log, imports, subject).Some? && LastEntry(log, imports, subject).value.facts == facts
  {
    LastEntryIsLast(log, imports, subject);
    if i: nat :| LastEvent(log, imports, subject, i) && log[i].content.facts == facts {
      var j: nat :| LastEvent(log, imports, subject, j) && log[j].content == LastEntry(log, imports, subject).value;
      assert i == j;
    }
    if LastEntry(log, imports, subject).Some? {
      var j: nat :| LastEvent(log, imports, subject, j) && log[j].content == LastEntry(log, imports, subject).value;
    }
  }

  lemma PackagedIsFound(runs: seq<Run>, id: string)
    ensures FindRun(runs, id).Some? <==> Packaged(runs, id)
  {
    if FindRun(runs, id).Some? {
      var k :| 0 <= k < |runs| && runs[k] == FindRun(runs, id).value;
    }
  }

  lemma ImportsExactlyWhen(runs: seq<Run>, log: EntryLog)
    ensures ImportsMatch(runs, log) <==> ImportsTell(runs, log)
  {
    forall i | 0 <= i < |log| && IsImport(log[i].content)
      ensures FindRun(runs, log[i].content.subject).Some? <==> Packaged(runs, log[i].content.subject)
    {
      PackagedIsFound(runs, log[i].content.subject);
    }
    forall k | 0 <= k < |runs|
      ensures LastImportFits(runs[k], log) <==>
              EventTells(log, true, runs[k].id, RunFacts(runs[k].hash, runs[k].sourceSha, runs[k].contract.hash))
    {
      EventExactlyWhen(log, true, runs[k].id, FactsOfRun(runs[k]));
    }
  }

  /** The last event about each report carries its kind, hash and runs, and no event is about another report. */
  ghost predicate ReportsTell(curve: LongitudinalReport, cross: CrossReport, log: EntryLog) {
    && (forall i | 0 <= i < |log| && log[i].content.kind != RunImported ::
          log[i].content.subject == curve.comparisonId || log[i].content.subject == cross.comparisonId)
    && EventTells(log, false, cross.comparisonId, ReportFacts(false, cross.hash, cross.runIds))
    && (curve.comparisonId != cross.comparisonId ==>
          EventTells(log, false, curve.comparisonId, ReportFacts(true, curve.hash, curve.runIds)))
  }

  lemma ReportsExactlyWhen(curve: LongitudinalReport, cross: CrossReport, log: EntryLog)
    ensures ReportsMatch(curve, cross, log) <==> ReportsTell(curve, cross, log)
  {
    EventExactlyWhen(log, false, cross.comparisonId, ReportFacts(false, cross.hash, cross.runIds));
    EventExactlyWhen(log, false, curve.comparisonId, ReportFacts(true, curve.hash, curve.runIds));
    assert ReportsKnown(curve, cross, log) <==> forall i | 0 <= i < |log| && log[i].content.kind != RunImported ::
        log[i].content.subject == curve.comparisonId || log[i].content.subject == cross.comparisonId;
  }

  /** Each report is what the comparator computes from the packaged runs it names, taken in the order it names them. */
  ghost predicate ReportsComputed(d: Digests, runs: seq<Run>, curve: LongitudinalReport, cross: CrossReport) {
    && (exists some :: Named(runs, curve.runIds, some) && Longitudinal(d, some, curve.comparisonId) == Ok(curve))
    && (exists some :: Named(runs, cross.runIds, some) && SameModel(d, some, cross.anchorId, cross.comparisonId) == Ok(cross))
  }

  ghost predicate Named(runs: seq<Run>, ids: seq<string>, some: seq<Run>) {
    |some| == |ids| && forall i | 0 <= i < |ids| :: some[i] in runs && some[i].id == ids[i]
  }

  lemma NamedIsResolved(runs: seq<Run>, ids: seq<string>, some: seq<Run>)
    requires KeysDistinct(runs, RunId) && Named(runs, ids, some)
    ensures AllPresent(runs, ids) && Resolve(runs, ids) == some
  {
    forall i | 0 <= i < |ids| ensures FindRun(runs, ids[i]) == Some(some[i]) {
      FindByOwnId(runs, some[i]);
    }
  }

  lemma ResolvedIsNamed(runs: seq<Run>, ids: seq<string>)
    requires AllPresent(runs, ids)
    ensures Named(runs, ids, Resolve(runs, ids))
  {
  }

  lemma ReportsComputedExactlyWhen(d: Digests, runs: seq<Run>, curve: LongitudinalReport, cross: CrossReport)
    requires KeysDistinct(runs, RunId)
    ensures ReportsRecompute(d, runs, curve, cross) <==> ReportsComputed(d, runs, curve, cross)
  {
    if ReportsRecompute(d, runs, curve, cross) {
      ResolvedIsNamed(runs, curve.runIds);
      ResolvedIsNamed(runs, cross.runIds);
    }
    if ReportsComputed(d, runs, curve, cross) {
      var a :| Named(runs, curve.runIds, a) && Longitudinal(d, a, curve.comparisonId) == Ok(curve);
      NamedIsResolved(runs, curve.runIds, a);
      var b :| Named(runs, cross.runIds, b) && SameModel(d, b, cross.anchorId, cross.comparisonId) == Ok(cross);
      NamedIsResolved(runs, cross.runIds, b);
    }
  }

  // ---------------------------------------------------------------- the package

  /** The runs of a package: distinct, of one suite, and flagged synthetic exactly when all are. */
  ghost predicate RunsTell(m: Manifest) {
    && m.runs != [] && (forall i, j | 0 <= i < j < |m.runs| :: m.runs[i].id != m.runs[j].id)
    && (forall i | 0 <= i < |m.runs| :: m.runs[i].contract.suite == m.suite)
    && (m.synthetic <==> forall i | 0 <= i < |m.runs| :: m.runs[i].contract.source == SyntheticFixture)
  }

  /** Everything an accepted package promises. */
  ghost predicate PackageTells(h: Hashing, m: Manifest) {
    && m.hash == h.manifest(m.(hash := ""))
    && RunsTell(m) && ReportsComputed(h.digests, m.runs, m.longitudinal, m.sameModel)
    && AssessmentsTell(m.runs, m.eligibility)
    && Intact(h.entry, m.events) && m.checkpoint.eventCount == |m.events| && m.checkpoint.headHash == Head(m.events)
    && ImportsTell(m.runs, m.events) && ReportsTell(m.longitudinal, m.sameModel, m.events)
  }

  lemma RunsExactlyWhen(m: Manifest)
    ensures RunsTell(m) <==>
              && m.runs != [] && KeysDistinct(m.runs, RunId)
              && (forall i | 0 <= i < |m.runs| :: m.runs[i].contract.suite == m.suite)
              && m.synthetic == AllSynthetic(m.runs)
  {
    KeysBound(m.runs, RunId);
    assert forall i, j | 0 <= i < j < |m.runs| :: RunId(m.runs[i]) != RunId(m.runs[j]) <==> m.runs[i].id != m.runs[j].id;
  }

  lemma PartsExactlyWhen(h: Hashing, m: Manifest)
    requires RunsTell(m)
    ensures EligibilityMatches(m.runs, m.eligibility) <==> AssessmentsTell(m.runs, m.eligibility)
    ensures ImportsMatch(m.runs, m.events) <==> ImportsTell(m.runs, m.events)
    ensures ReportsMatch(m.longitudinal, m.sameModel, m.events) <==> ReportsTell(m.longitudinal, m.sameModel, m.events)
    ensures ReportsRecompute(h.digests, m.runs, m.longitudinal, m.sameModel)
            <==> ReportsComputed(h.digests, m.runs, m.longitudinal, m.sameModel)
  {
    RunsExactlyWhen(m);
    AssessmentsExactlyWhen(m.runs, m.eligibility);
    ImportsExactlyWhen(m.runs, m.events);
    ReportsExactlyWhen(m.longitudinal, m.sameModel, m.events);
    ReportsComputedExactlyWhen(h.digests, m.runs, m.longitudinal, m.sameModel);
  }

  lemma AcceptedRunsTell(h: Hashing, m: Manifest)
    requires Acceptable(h, m)
    ensures RunsTell(m)
  {
    RunsExactlyWhen(m);
  }

  lemma ToldRunsFit(h: Hashing, m: Manifest)
    requires RunsTell(m) && Intact(h.entry, m.events) && m.checkpoint == CheckpointOf(m.events)
    requires ImportsMatch(m.runs, m.events) && ReportsMatch(m.longitudinal, m.sameModel, m.events)
    requires EligibilityMatches(m.runs, m.eligibility)
    ensures RecordsFit(h.entry, m.suite, m.runs, m.longitudinal, m.sameModel, m.eligibility, m.events, m.checkpoint, m.synthetic)
  {
    RunsExactlyWhen(m);
    PartsFit(h.entry, m.suite, m.runs, m.longitudinal, m.sameModel, m.eligibility, m.events);
  }

  lemma AcceptedTells(h: Hashing, m: Manifest)
    requires Acceptable(h, m)
    ensures PackageTells(h, m)
  {
    AcceptedRunsTell(h, m);
    PartsTell(h, m);
  }

  lemma PartsTell(h: Hashing, m: Manifest)
    requires RunsTell(m) && m.hash == h.manifest(m.(hash := ""))
    requires Intact(h.entry, m.events) && m.checkpoint == CheckpointOf(m.events)
    requires ImportsMatch(m.runs, m.events) && ReportsMatch(m.longitudinal, m.sameModel, m.events)
    requires EligibilityMatches(m.runs, m.eligibility) && ReportsRecompute(h.digests, m.runs, m.longitudinal, m.sameModel)
    ensures PackageTells(h, m)
  {
    PartsExactlyWhen(h, m);
  }

  lemma TellingIsAccepted(h: Hashing, m: Manifest)
    requires PackageTells(h, m)
    ensures Acceptable(h, m)
  {
    PartsExactlyWhen(h, m);
    assert m.checkpoint == CheckpointOf(m.events);
    ToldRunsFit(h, m);
  }

  /** A package is accepted exactly when it keeps every one of these promises. */
  lemma AcceptedExactlyWhen(h: Hashing, m: Manifest)
    ensures Acceptable(h, m) <==> PackageTells(h, m)
  {
    if Acceptable(h, m) {
      AcceptedTells(h, m);
    }
    if PackageTells(h, m) {
      TellingIsAccepted(h, m);
    }
  }

  /** What is assembled carries its parts unchanged, derives the synthetic flag and digests itself with a blank hash. */
  lemma AssembledCarriesParts(h: Hashing, header: Header, suite: Suite, runs: seq<Run>, curve: LongitudinalReport, cross: CrossReport,
                              eligibility: seq<Eligibility>, log: EntryLog, checkpoint: Checkpoint)
    ensures var m := Assemble(h, header, suite, runs, curve, cross, eligibility, log, checkpoint);
            && m.header == header && m.suite == suite && m.runs == runs && m.longitudinal == curve && m.sameModel == cross
            && m.eligibility == eligibility && m.events == log && m.checkpoint == checkpoint
            && (m.synthetic <==> forall i | 0 <= i < |runs| :: runs[i].contract.source == SyntheticFixture)
            && m.hash == h.manifest(m.(hash := ""))
  {
    var m := Assemble(h, header, suite, runs, curve, cross, eligibility, log, checkpoint);
    assert m.(hash := "") == m.(hash := "").(hash := "");
  }
}
