/** The repository object: tables updated in place, one rollback per failing transaction. */
module CampaignRepositoryModel {
  import opened Prelude
  import opened AuditChain
  import opened CampaignStore

  class CampaignRepository {
    const hash: ContentHash
    var campaigns: seq<Campaign>
    var approvals: seq<Approval>
    var events: Log

    constructor (hash: ContentHash)
      ensures this.hash == hash && Tables() == EMPTY
    {
      this.hash := hash;
      campaigns, approvals, events := [], [], [];
    }

    function Tables(): Store
      reads this
    {
      Store(campaigns, approvals, events)
    }

    /** Restore the tables a transaction began with. */
    method Rollback(snapshot: Store)
      modifies this
      ensures Tables() == snapshot
    {
      campaigns, approvals, events := snapshot.campaigns, snapshot.approvals, snapshot.events;
    }

    method AppendEvent(content: Content) returns (ok: bool)
      modifies this`events
      ensures ok == !EventIdUsed(old(events), content.eventId)
      ensures events == if ok then Append(hash, old(events), content) else old(events)
    {
      ok := !EventIdUsed(events, content.eventId);
      if ok {
        events := Append(hash, events, content);
      }
    }

    /** UPDATE one row, append the event and commit; on a constraint violation restore the snapshot. */
    method UpdateRow(snapshot: Store, i: nat, row: Campaign, content: Content) returns (r: Result<Reply, Error>)
      requires i < |campaigns| && campaigns == snapshot.campaigns && events == snapshot.events
      modifies this
      ensures var t := Write(hash, snapshot, i, row, old(approvals), content);
              && Tables() == (if t.Ok? then t.value.store else snapshot)
              && r == (if t.Ok? then Ok(t.value.reply) else Err(t.error))
    {
      campaigns := campaigns[i := row];
      if !OpenTargetsUnique(campaigns) {
        Rollback(snapshot);
        return Err(OpenTargetIndex);
      }
      var appended := AppendEvent(content);
      if !appended {
        Rollback(snapshot);
        return Err(EventIdTaken);
      }
      return Ok(Reply(row, false));
    }

    method ReserveCampaign(ctype: CampaignType, target: string, fingerprint: string, risk: Risk, generatedBy: string,
                           requiredApprovals: int, initialState: State, metadata: string, newId: string,
                           actor: string, eventId: string, now: int)
      returns (r: Result<Reply, Error>)
      modifies this
      ensures var c := Call(Reserve(ctype, target, fingerprint, risk, generatedBy, requiredApprovals, initialState,
                                    metadata, newId), actor, eventId, now);
              Tables() == Step(hash, old(Tables()), c) && r == Answer(hash, old(Tables()), c)
    {
      if requiredApprovals < 1 {
        return Err(InvalidArgument);
      }
      if !(initialState.Open? || initialState.EvidenceAccumulating?) {
        return Err(InvalidArgument);
      }
      var snapshot := Tables();
      var existing := FindOpen(campaigns, target);
      if existing.Some? {
        var record := campaigns[existing.value];
        if record.fingerprint != fingerprint {
          return Err(Conflict(record.id));
        }
        var appended := AppendEvent(Content(eventId, record.id, CampaignReused(target, fingerprint, metadata), actor, now));
        if !appended {
          Rollback(snapshot);
          return Err(EventIdTaken);
        }
        return Ok(Reply(record, true));
      }
      var closed := LatestCooldown(campaigns, target);
      if closed.Some? {
        var cooldownUntil := campaigns[closed.value].cooldownUntil.value;
        if cooldownUntil > now {
          return Err(CoolingDown(cooldownUntil));
        }
      }
      if FindById(campaigns, newId).Some? {
        return Err(DuplicateKey);
      }
      var row := Campaign(newId, ctype, target, fingerprint, initialState, risk, generatedBy, requiredApprovals, None,
                          None, metadata, now, now, None, 0);
      campaigns := campaigns + [row];
      if !OpenTargetsUnique(campaigns) {
        Rollback(snapshot);
        return Err(OpenTargetIndex);
      }
      var appended := AppendEvent(Content(eventId, newId, CampaignCreated(ctype, target, fingerprint, initialState), actor, now));
      if !appended {
        Rollback(snapshot);
        return Err(EventIdTaken);
      }
      return Ok(Reply(row, false));
    }

    method AttachCandidate(id: string, candidateRef: string, artifact: string, expectedRevision: int, actor: string,
                           eventId: string, now: int)
      returns (r: Result<Reply, Error>)
      modifies this
      ensures var c := Call(Attach(id, candidateRef, artifact, expectedRevision), actor, eventId, now);
              Tables() == Step(hash, old(Tables()), c) && r == Answer(hash, old(Tables()), c)
    {
      var snapshot := Tables();
      var found := FindById(campaigns, id);
      if found.None? {
        return Err(UnknownCampaign);
      }
      var record := campaigns[found.value];
      if record.revision != expectedRevision {
        return Err(StaleRevision(record.revision));
      }
      if CandidateReady !in LegalTransitions(record.state) {
        return Err(IllegalTransition);
      }
      var row := record.(candidateRef := Some(candidateRef), artifact := Some(artifact), state := CandidateReady,
                         updatedAt := now, revision := record.revision + 1);
      r := UpdateRow(snapshot, found.value, row, Content(eventId, id, CandidateAttached(candidateRef), actor, now));
    }

    method TransitionTo(id: string, toState: State, expectedRevision: int, actor: string, reason: string,
                        cooldownSeconds: int, eventId: string, now: int)
      returns (r: Result<Reply, Error>)
      modifies this
      ensures var c := Call(Transition(id, toState, expectedRevision, reason, cooldownSeconds), actor, eventId, now);
              Tables() == Step(hash, old(Tables()), c) && r == Answer(hash, old(Tables()), c)
    {
      var snapshot := Tables();
      var found := FindById(campaigns, id);
      if found.None? {
        return Err(UnknownCampaign);
      }
      var record := campaigns[found.value];
      if record.revision != expectedRevision {
        return Err(StaleRevision(record.revision));
      }
      if toState !in LegalTransitions(record.state) {
        return Err(IllegalTransition);
      }
      var cooldownUntil: Option<int> := None;
      if (toState.Rejected? || toState.Cancelled?) && cooldownSeconds != 0 {
        cooldownUntil := Some(now + cooldownSeconds);
      }
      var row := record.(state := toState, updatedAt := now, cooldownUntil := cooldownUntil, revision := record.revision + 1);
      r := UpdateRow(snapshot, found.value, row, Content(eventId, id, CampaignTransitioned(record.state, toState, reason, cooldownUntil), actor, now));
    }

    method RecordDecision(id: string, approvalId: string, actor: string, decision: Decision, reason: string,
                          expectedRevision: int, rejectionCooldownSeconds: int, eventId: string, now: int)
      returns (r: Result<Reply, Error>)
      modifies this
      ensures var c := Call(RecordApproval(id, approvalId, decision, reason, expectedRevision, rejectionCooldownSeconds),
                            actor, eventId, now);
              Tables() == Step(hash, old(Tables()), c) && r == Answer(hash, old(Tables()), c)
    {
      var snapshot := Tables();
      var found := FindById(campaigns, id);
      if found.None? {
        return Err(UnknownCampaign);
      }
      var record := campaigns[found.value];
      if record.revision != expectedRevision {
        return Err(StaleRevision(record.revision));
      }
      if record.state != ApprovalPending {
        return Err(ApprovalRefused(NotAwaitingApproval));
      }
      if actor == record.generatedBy {
        return Err(ApprovalRefused(SelfApproval));
      }
      if HasDecided(approvals, id, actor) || ApprovalIdTaken(approvals, approvalId) {
        return Err(ApprovalRefused(DuplicateDecision));
      }
      approvals := approvals + [Approval(approvalId, id, actor, decision, reason, now)];

      var nextState := record.state;
      var cooldownUntil: Option<int> := None;
      if decision == Reject {
        nextState := Rejected;
        if rejectionCooldownSeconds != 0 {
          cooldownUntil := Some(now + rejectionCooldownSeconds);
        }
      } else {
        var count := CountDecisions(approvals, id, Approve);
        if count >= record.requiredApprovals {
          nextState := Authorized;
        }
      }
      var row := record.(state := nextState, updatedAt := now, cooldownUntil := cooldownUntil, revision := record.revision + 1);
      r := UpdateRow(snapshot, found.value, row, Content(eventId, id, ApprovalRecorded(decision, reason, nextState), actor, now));
    }

    method VerifyLog(checkpoint: Option<Checkpoint>) returns (verdict: Verdict)
      ensures verdict == Verified <==> Accepted(hash, events, checkpoint)
    {
      verdict := VerifyAudit(hash, events, checkpoint);
    }
  }
}
