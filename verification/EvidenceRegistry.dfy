/** The immutable evidence registry: runs and reports stored once, each with exactly one chained audit event. */
module EvidenceRegistry {
  import opened Prelude
  import opened AuditChain
  import opened BenchmarkModels
  import opened BenchmarkComparison

  datatype Report = Curve(longitudinal: LongitudinalReport) | Cross(cross: CrossReport)

  datatype Kind = RunImported | LongitudinalStored | SameModelStored

  datatype Facts =
    | RunFacts(evidenceHash: string, rawSha: string, contractHash: string)
    | ReportFacts(isLongitudinal: bool, reportHash: string, runIds: seq<string>)

  datatype Entry = Entry(eventId: string, kind: Kind, subject: string, facts: Facts, actor: string, createdAt: int)

  type EntryLog = seq<Event<Entry>>
  type EntryHash = EventHash<Entry>

  datatype Registry = Registry(runs: map<string, Run>, reports: map<string, Report>, events: EntryLog)

  const EMPTY_REGISTRY := Registry(map[], map[], [])

  datatype RegistryError = ConflictingRun | ConflictingReport | EventIdTaken

  function ReportId(r: Report): string {
    match r
    case Curve(l) => l.comparisonId
    case Cross(c) => c.comparisonId
  }

  function FactsOfRun(run: Run): Facts {
    RunFacts(run.hash, run.sourceSha, run.contract.hash)
  }

  function FactsOfReport(r: Report): Facts {
    match r
    case Curve(l) => ReportFacts(true, l.hash, l.runIds)
    case Cross(c) => ReportFacts(false, c.hash, c.runIds)
  }

  function KindOfReport(r: Report): Kind {
    if r.Curve? then LongitudinalStored else SameModelStored
  }

  predicate EventUsed(log: EntryLog, eventId: string) {
    exists i | 0 <= i < |log| :: log[i].content.eventId == eventId
  }

  // ---------------------------------------------------------------- operations on values

  datatype Stored = Stored(registry: Registry, reused: bool)

  function ImportRun(hash: EntryHash, s: Registry, run: Run, actor: string, eventId: string, now: int): Result<Stored, RegistryError> {
    if run.id in s.runs then
      if s.runs[run.id] != run then Err(ConflictingRun) else Ok(Stored(s, true))
    else if EventUsed(s.events, eventId) then Err(EventIdTaken)
    else
      Ok(Stored(Registry(s.runs[run.id := run], s.reports,
                         Append(hash, s.events, Entry(eventId, RunImported, run.id, FactsOfRun(run), actor, now))), false))
  }

  function StoreReport(hash: EntryHash, s: Registry, report: Report, actor: string, eventId: string, now: int): Result<Stored, RegistryError> {
    var id := ReportId(report);
    if id in s.reports then
      if s.reports[id] != report then Err(ConflictingReport) else Ok(Stored(s, true))
    else if EventUsed(s.events, eventId) then Err(EventIdTaken)
    else
      Ok(Stored(Registry(s.runs, s.reports[id := report],
                         Append(hash, s.events, Entry(eventId, KindOfReport(report), id, FactsOfReport(report), actor, now))), false))
  }

  datatype Write = WriteRun(run: Run) | WriteReport(report: Report)

  datatype RegistryCall = RegistryCall(write: Write, actor: string, eventId: string, now: int)

  function Perform(hash: EntryHash, s: Registry, c: RegistryCall): Result<Stored, RegistryError> {
    match c.write
    case WriteRun(run) => ImportRun(hash, s, run, c.actor, c.eventId, c.now)
    case WriteReport(report) => StoreReport(hash, s, report, c.actor, c.eventId, c.now)
  }

  function After(hash: EntryHash, s: Registry, c: RegistryCall): Registry {
    var r := Perform(hash, s, c);
    if r.Ok? then r.value.registry else s
  }

  function History(hash: EntryHash, calls: seq<RegistryCall>): Registry {
    if calls == [] then EMPTY_REGISTRY else After(hash, History(hash, calls[..|calls| - 1]), calls[|calls| - 1])
  }

  // ---------------------------------------------------------------- what the state check demands

  datatype StateFault = MissingRuns | MissingAnchor | ChainRejected

  function RunIdsOf(r: Report): seq<string> {
    match r
    case Curve(l) => l.runIds
    case Cross(c) => c.runIds
  }

  /** Every run a report names, and its anchor, is in the registry. */
  predicate Resolved(runs: map<string, Run>, r: Report) {
    && (forall i | 0 <= i < |RunIdsOf(r)| :: RunIdsOf(r)[i] in runs)
    && (r.Cross? ==> r.cross.anchorId in runs)
  }

  ghost predicate StateHolds(hash: EntryHash, s: Registry) {
    Intact(hash, s.events) && forall id | id in s.reports :: Resolved(s.runs, s.reports[id])
  }

  // ---------------------------------------------------------------- the registry object

  class BenchmarkEvidenceRepository {
    const hash: EntryHash
    var runs: map<string, Run>
    var reports: map<string, Report>
    var events: EntryLog

    constructor (hash: EntryHash)
      ensures this.hash == hash && Tables() == EMPTY_REGISTRY
    {
      this.hash := hash;
      runs, reports, events := map[], map[], [];
    }

    function Tables(): Registry
      reads this
    {
      Registry(runs, reports, events)
    }

    method AppendEvent(entry: Entry) returns (ok: bool)
      modifies this`events
      ensures ok == !EventUsed(old(events), entry.eventId)
      ensures events == if ok then Append(hash, old(events), entry) else old(events)
    {
      ok := !EventUsed(events, entry.eventId);
      if ok {
        events := Append(hash, events, entry);
      }
    }

    method ImportEvidence(run: Run, actor: string, eventId: string, now: int) returns (r: Result<(Run, bool), RegistryError>)
      modifies this
      ensures var c := RegistryCall(WriteRun(run), actor, eventId, now);
              && Tables() == After(hash, old(Tables()), c)
              && (r.Ok? <==> Perform(hash, old(Tables()), c).Ok?)
              && (r.Ok? ==> r.value == (run, run.id in old(runs)))
              && (r.Err? ==> r.error == Perform(hash, old(Tables()), c).error)
    {
      if run.id in runs {
        var existing := runs[run.id];
        if existing != run {
          return Err(ConflictingRun);
        }
        return Ok((existing, true));
      }
      var snapshot := runs;
      runs := runs[run.id := run];
      var appended := AppendEvent(Entry(eventId, RunImported, run.id, FactsOfRun(run), actor, now));
      if !appended {
        runs := snapshot;
        return Err(EventIdTaken);
      }
      return Ok((run, false));
    }

    method StoreComparison(report: Report, actor: string, eventId: string, now: int)
      returns (r: Result<(Report, bool), RegistryError>)
      modifies this
      ensures var c := RegistryCall(WriteReport(report), actor, eventId, now);
              && Tables() == After(hash, old(Tables()), c)
              && (r.Ok? <==> Perform(hash, old(Tables()), c).Ok?)
              && (r.Ok? ==> r.value == (report, ReportId(report) in old(reports)))
              && (r.Err? ==> r.error == Perform(hash, old(Tables()), c).error)
    {
      var id := ReportId(report);
      if id in reports {
        var existing := reports[id];
        if existing != report {
          return Err(ConflictingReport);
        }
        return Ok((existing, true));
      }
      var kind := if report.Curve? then LongitudinalStored else SameModelStored;
      var snapshot := reports;
      reports := reports[id := report];
      var appended := AppendEvent(Entry(eventId, kind, id, FactsOfReport(report), actor, now));
      if !appended {
        reports := snapshot;
        return Err(EventIdTaken);
      }
      return Ok((report, false));
    }

    method VerifyLog(checkpoint: Option<Checkpoint>) returns (verdict: Verdict)
      ensures verdict == Verified <==> Accepted(hash, events, checkpoint)
    {
      verdict := VerifyAudit(hash, events, checkpoint);
    }

    /** `verify_state`: every stored report names imported runs, and the log is intact. */
    method VerifyState() returns (fault: Option<StateFault>)
      ensures fault.None? <==> StateHolds(hash, Tables())
    {
      var remaining := reports.Keys;
      while remaining != {}
        invariant remaining <= reports.Keys
        invariant forall id | id in reports && id !in remaining :: Resolved(runs, reports[id])
        decreases remaining
      {
        var id :| id in remaining;
        remaining := remaining - {id};
        var report := reports[id];
        var ids := RunIdsOf(report);
        if exists i | 0 <= i < |ids| :: ids[i] !in runs {
          return Some(MissingRuns);
        }
        if report.Cross? && report.cross.anchorId !in runs {
          return Some(MissingAnchor);
        }
      }
      var verdict := VerifyAudit(hash, events, None);
      if verdict != Verified {
        return Some(ChainRejected);
      }
      return None;
    }
  }

  // ---------------------------------------------------------------- what every history keeps

  predicate IsImport(e: Entry) { e.kind.RunImported? }

  /** Event `i` records something that is in the tables, exactly as it is there. */
  ghost predicate Backed(s: Registry, e: Entry) {
    if IsImport(e) then e.subject in s.runs && s.runs[e.subject].id == e.subject && e.facts == FactsOfRun(s.runs[e.subject])
    else
      && e.subject in s.reports && ReportId(s.reports[e.subject]) == e.subject
      && e.facts == FactsOfReport(s.reports[e.subject]) && e.kind == KindOfReport(s.reports[e.subject])
  }

  ghost predicate HasEvent(log: EntryLog, isImport: bool, subject: string) {
    exists i | 0 <= i < |log| :: IsImport(log[i].content) == isImport && log[i].content.subject == subject
  }

  ghost predicate AllBacked(s: Registry, log: EntryLog) {
    forall i | 0 <= i < |log| :: Backed(s, log[i].content)
  }

  ghost predicate OncePerSubject(log: EntryLog) {
    forall i, j | 0 <= i < j < |log| ::
      !(IsImport(log[i].content) == IsImport(log[j].content) && log[i].content.subject == log[j].content.subject)
  }

  ghost predicate EverySubjectLogged(s: Registry, log: EntryLog) {
    && (forall id | id in s.runs :: HasEvent(log, true, id))
    && (forall id | id in s.reports :: HasEvent(log, false, id))
  }

  /** The log is a one-to-one record of the two tables. */
  ghost predicate Consistent(hash: EntryHash, s: Registry) {
    Intact(hash, s.events) && AllBacked(s, s.events) && OncePerSubject(s.events) && EverySubjectLogged(s, s.events)
  }

  lemma LongerLogOnce(log: EntryLog, e: Event<Entry>)
    requires OncePerSubject(log) && !HasEvent(log, IsImport(e.content), e.content.subject)
    ensures OncePerSubject(log + [e])
  {
    assert forall i | 0 <= i < |log| ::
        !(IsImport(log[i].content) == IsImport(e.content) && log[i].content.subject == e.content.subject);
  }

  lemma LongerLogHas(log: EntryLog, e: Event<Entry>, isImport: bool, subject: string)
    requires HasEvent(log, isImport, subject) || (isImport == IsImport(e.content) && subject == e.content.subject)
    ensures HasEvent(log + [e], isImport, subject)
  {
    var longer := log + [e];
    if HasEvent(log, isImport, subject) {
      var i :| 0 <= i < |log| && IsImport(log[i].content) == isImport && log[i].content.subject == subject;
      assert longer[i] == log[i];
    } else {
      assert longer[|log|] == e;
    }
  }

  lemma NotYetLogged(s: Registry, isImport: bool, subject: string)
    requires AllBacked(s, s.events)
    requires if isImport then subject !in s.runs else subject !in s.reports
    ensures !HasEvent(s.events, isImport, subject)
  {
  }

  lemma ImportKeepsConsistent(hash: EntryHash, s: Registry, run: Run, entry: Entry)
    requires Consistent(hash, s) && run.id !in s.runs
    requires entry.kind == RunImported && entry.subject == run.id && entry.facts == FactsOfRun(run)
    ensures Consistent(hash, Registry(s.runs[run.id := run], s.reports, Append(hash, s.events, entry)))
  {
    var t := Registry(s.runs[run.id := run], s.reports, Append(hash, s.events, entry));
    var e := t.events[|s.events|];
    AppendKeepsIntact(hash, s.events, entry);
    NotYetLogged(s, true, run.id);
    LongerLogOnce(s.events, e);
    forall i | 0 <= i < |t.events| ensures Backed(t, t.events[i].content) {
      assert i < |s.events| ==> Backed(s, s.events[i].content);
    }
    forall id | id in t.runs ensures HasEvent(t.events, true, id) {
      LongerLogHas(s.events, e, true, id);
    }
    forall id | id in t.reports ensures HasEvent(t.events, false, id) {
      LongerLogHas(s.events, e, false, id);
    }
  }

  lemma StoreKeepsConsistent(hash: EntryHash, s: Registry, report: Report, entry: Entry)
    requires Consistent(hash, s) && ReportId(report) !in s.reports
    requires entry.kind == KindOfReport(report) && entry.subject == ReportId(report) && entry.facts == FactsOfReport(report)
    ensures Consistent(hash, Registry(s.runs, s.reports[ReportId(report) := report], Append(hash, s.events, entry)))
  {
    var t := Registry(s.runs, s.reports[ReportId(report) := report], Append(hash, s.events, entry));
    var e := t.events[|s.events|];
    AppendKeepsIntact(hash, s.events, entry);
    NotYetLogged(s, false, ReportId(report));
    LongerLogOnce(s.events, e);
    forall i | 0 <= i < |t.events| ensures Backed(t, t.events[i].content) {
      assert i < |s.events| ==> Backed(s, s.events[i].content);
    }
    forall id | id in t.runs ensures HasEvent(t.events, true, id) {
      LongerLogHas(s.events, e, true, id);
    }
    forall id | id in t.reports ensures HasEvent(t.events, false, id) {
      LongerLogHas(s.events, e, false, id);
    }
  }

  lemma CallKeepsConsistent(hash: EntryHash, s: Registry, c: RegistryCall)
    requires Consistent(hash, s)
    ensures Consistent(hash, After(hash, s, c))
  {
    match c.write
    case WriteRun(run) =>
      if run.id !in s.runs {
        ImportKeepsConsistent(hash, s, run, Entry(c.eventId, RunImported, run.id, FactsOfRun(run), c.actor, c.now));
      }
    case WriteReport(report) =>
      if ReportId(report) !in s.reports {
        StoreKeepsConsistent(hash, s, report,
                             Entry(c.eventId, KindOfReport(report), ReportId(report), FactsOfReport(report), c.actor, c.now));
      }
  }

  /**
   * After any history of imports and stores, retried or conflicting ones
   * included, the log holds one event per stored run and report and nothing
   * else, and the chain is intact.
   */
  lemma {:induction false} HistoryIsConsistent(hash: EntryHash, calls: seq<RegistryCall>)
    ensures Consistent(hash, History(hash, calls))
  {
    if calls != [] {
      HistoryIsConsistent(hash, calls[..|calls| - 1]);
      CallKeepsConsistent(hash, History(hash, calls[..|calls| - 1]), calls[|calls| - 1]);
    }
  }

  /** What is stored is immutable: no later call changes or removes it. */
  lemma {:induction false} EvidenceIsImmutable(hash: EntryHash, calls: seq<RegistryCall>, n: nat)
    requires n <= |calls|
    ensures var early, late := History(hash, calls[..n]), History(hash, calls);
            && (forall id | id in early.runs :: id in late.runs && late.runs[id] == early.runs[id])
            && (forall id | id in early.reports :: id in late.reports && late.reports[id] == early.reports[id])
            && early.events <= late.events
  {
    if n == |calls| {
      assert calls[..n] == calls;
    } else {
      assert calls[..|calls| - 1][..n] == calls[..n];
      EvidenceIsImmutable(hash, calls[..|calls| - 1], n);
    }
  }

  /** Repeating a call that succeeded changes nothing and succeeds again, whatever event id it draws. */
  lemma RetryIsHarmless(hash: EntryHash, s: Registry, c: RegistryCall, again: RegistryCall)
    requires Perform(hash, s, c).Ok? && again.write == c.write
    ensures Perform(hash, After(hash, s, c), again) == Ok(Stored(After(hash, s, c), true))
  {
  }

  /** A call that stores a report naming a run, or an anchor, the registry does not hold. */
  predicate Dangles(s: Registry, c: RegistryCall) {
    c.write.WriteReport? && !Resolved(s.runs, c.write.report)
  }

  lemma MoreRunsResolve(s: Registry, t: Registry, report: Report)
    requires s.runs.Keys <= t.runs.Keys && Resolved(s.runs, report)
    ensures Resolved(t.runs, report)
  {
  }

  /**
   * `store_comparison` does not look at the runs a report names. A committed
   * call keeps the state check passing if and only if it does not store a
   * report with a missing run.
   */
  lemma StateHoldsExactlyWhenResolved(hash: EntryHash, s: Registry, c: RegistryCall)
    requires StateHolds(hash, s) && Perform(hash, s, c).Ok?
    ensures StateHolds(hash, After(hash, s, c)) <==> !Dangles(s, c)
  {
    var t := After(hash, s, c);
    match c.write
    case WriteRun(run) =>
      if run.id !in s.runs {
        AppendKeepsIntact(hash, s.events, Entry(c.eventId, RunImported, run.id, FactsOfRun(run), c.actor, c.now));
        forall id | id in t.reports ensures Resolved(t.runs, t.reports[id]) {
          MoreRunsResolve(s, t, s.reports[id]);
        }
      }
    case WriteReport(report) =>
      if ReportId(report) !in s.reports {
        AppendKeepsIntact(hash, s.events,
                          Entry(c.eventId, KindOfReport(report), ReportId(report), FactsOfReport(report), c.actor, c.now));
        assert t.reports[ReportId(report)] == report;
      }
  }

  /** If every report is stored after the runs it names, the state check passes after every history. */
  lemma {:induction false} OrderedHistoryPassesStateCheck(hash: EntryHash, calls: seq<RegistryCall>)
    requires forall i | 0 <= i < |calls| :: !Dangles(History(hash, calls[..i]), calls[i])
    ensures StateHolds(hash, History(hash, calls))
  {
    if calls != [] {
      var n := |calls| - 1;
      forall i | 0 <= i < n ensures !Dangles(History(hash, calls[..n][..i]), calls[..n][i]) {
        assert calls[..n][..i] == calls[..i];
      }
      OrderedHistoryPassesStateCheck(hash, calls[..n]);
      var s := History(hash, calls[..n]);
      if Perform(hash, s, calls[n]).Ok? {
        StateHoldsExactlyWhenResolved(hash, s, calls[n]);
      }
    }
  }
}
