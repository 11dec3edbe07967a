/** When the evidence registry accepts a record, and what holding it then means. */
module RegistryOutcomes {
  import opened Prelude
  import opened AuditChain
  import opened BenchmarkModels
  import opened BenchmarkComparison
  import opened EvidenceRegistry

  ghost predicate Fresh(s: Registry, eventId: string) {
    forall k | 0 <= k < |s.events| :: s.events[k].content.eventId != eventId
  }

  /** The log grew by one event with these contents, by this actor at this time. */
  ghost predicate Logged(s: Registry, t: Registry, c: RegistryCall, kind: Kind, subject: string, facts: Facts) {
    && |t.events| == |s.events| + 1 && t.events[..|s.events|] == s.events
    && t.events[|s.events|].content == Entry(c.eventId, kind, subject, facts, c.actor, c.now)
  }

  /**
   * An import, complete: another record under the same id is a conflict, the
   * same record is a reuse, and neither changes anything; a new id needs a
   * new event identifier and is then stored with one import event that
   * carries the record's three hashes.
   */
  lemma ImportOutcome(hash: EntryHash, s: Registry, run: Run, actor: string, eventId: string, now: int)
    ensures var c := RegistryCall(WriteRun(run), actor, eventId, now);
            var r, t := Perform(hash, s, c), After(hash, s, c);
            if run.id in s.runs && s.runs[run.id] != run then r == Err(ConflictingRun) && t == s
            else if run.id in s.runs then r == Ok(Stored(s, true)) && t == s
            else if !Fresh(s, eventId) then r == Err(RegistryError.EventIdTaken) && t == s
            else
              && r == Ok(Stored(t, false)) && t.reports == s.reports
              && t.runs == s.runs[run.id := run]
              && Logged(s, t, c, RunImported, run.id, RunFacts(run.hash, run.sourceSha, run.contract.hash))
  {
  }

  /** The same for a comparison report of either kind. */
  lemma StoreOutcome(hash: EntryHash, s: Registry, report: Report, actor: string, eventId: string, now: int)
    ensures var c := RegistryCall(WriteReport(report), actor, eventId, now);
            var r, t := Perform(hash, s, c), After(hash, s, c);
            var id := if report.Curve? then report.longitudinal.comparisonId else report.cross.comparisonId;
            if id in s.reports && s.reports[id] != report then r == Err(ConflictingReport) && t == s
            else if id in s.reports then r == Ok(Stored(s, true)) && t == s
            else if !Fresh(s, eventId) then r == Err(RegistryError.EventIdTaken) && t == s
            else
              && r == Ok(Stored(t, false)) && t.runs == s.runs
              && t.reports == s.reports[id := report]
              && (report.Curve? ==> Logged(s, t, c, LongitudinalStored, id, ReportFacts(true, report.longitudinal.hash, report.longitudinal.runIds)))
              && (report.Cross? ==> Logged(s, t, c, SameModelStored, id, ReportFacts(false, report.cross.hash, report.cross.runIds)))
  {
  }

  /** A committed import means that the registry holds exactly that record. */
  lemma CommittedImportIsHeld(hash: EntryHash, s: Registry, c: RegistryCall)
    requires c.write.WriteRun? && Perform(hash, s, c).Ok?
    ensures var run, t := c.write.run, After(hash, s, c);
            run.id in t.runs && t.runs[run.id] == run
  {
  }

  lemma CommittedReportIsHeld(hash: EntryHash, s: Registry, c: RegistryCall)
    requires c.write.WriteReport? && Perform(hash, s, c).Ok?
    ensures var id := if c.write.report.Curve? then c.write.report.longitudinal.comparisonId else c.write.report.cross.comparisonId;
            id in After(hash, s, c).reports && After(hash, s, c).reports[id] == c.write.report
  {
  }

  /** Call `i` of a history committed. */
  ghost predicate Committed(hash: EntryHash, calls: seq<RegistryCall>, i: nat)
    requires i < |calls|
  {
    Perform(hash, History(hash, calls[..i]), calls[i]).Ok?
  }

  lemma AcceptedRunIsHeldAtOnce(hash: EntryHash, calls: seq<RegistryCall>, i: nat)
    requires i < |calls| && calls[i].write.WriteRun? && Committed(hash, calls, i)
    ensures var run, s := calls[i].write.run, History(hash, calls[..i + 1]);
            run.id in s.runs && s.runs[run.id] == run
  {
    assert calls[..i + 1][..i] == calls[..i];
    CommittedImportIsHeld(hash, History(hash, calls[..i]), calls[i]);
  }

  lemma HeldRunStays(hash: EntryHash, calls: seq<RegistryCall>, n: nat, run: Run)
    requires n <= |calls| && run.id in History(hash, calls[..n]).runs && History(hash, calls[..n]).runs[run.id] == run
    ensures run.id in History(hash, calls).runs && History(hash, calls).runs[run.id] == run
  {
    EvidenceIsImmutable(hash, calls, n);
  }

  /**
   * What the caller was told stays true: after any history the registry holds
   * every run it ever accepted, unchanged, and two accepted runs with one id
   * are one and the same record.
   */
  lemma AcceptedRunsAreHeld(hash: EntryHash, calls: seq<RegistryCall>, i: nat)
    requires i < |calls| && calls[i].write.WriteRun? && Committed(hash, calls, i)
    ensures var run, s := calls[i].write.run, History(hash, calls);
            run.id in s.runs && s.runs[run.id] == run
  {
    AcceptedRunIsHeldAtOnce(hash, calls, i);
    HeldRunStays(hash, calls, i + 1, calls[i].write.run);
  }

  lemma OneRecordPerId(hash: EntryHash, calls: seq<RegistryCall>, i: nat, j: nat)
    requires i < |calls| && calls[i].write.WriteRun? && Committed(hash, calls, i)
    requires j < |calls| && calls[j].write.WriteRun? && Committed(hash, calls, j)
    requires calls[i].write.run.id == calls[j].write.run.id
    ensures calls[i].write.run == calls[j].write.run
  {
    AcceptedRunsAreHeld(hash, calls, i);
    AcceptedRunsAreHeld(hash, calls, j);
  }

  /** An import fails exactly on another record under its id, or on a new id with a used event identifier. */
  lemma ImportFailsExactlyWhen(hash: EntryHash, s: Registry, c: RegistryCall)
    requires c.write.WriteRun?
    ensures var run := c.write.run;
            Perform(hash, s, c).Err? <==>
              if run.id in s.runs then s.runs[run.id] != run
              else exists k :: 0 <= k < |s.events| && s.events[k].content.eventId == c.eventId
  {
    ImportOutcome(hash, s, c.write.run, c.actor, c.eventId, c.now);
  }
}
