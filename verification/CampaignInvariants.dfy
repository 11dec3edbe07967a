/** What every call keeps, and what follows for whole runs of the Campaign store. */
module CampaignInvariants {
  import opened Prelude
  import opened AuditChain
  import opened CampaignStore

  // ---------------------------------------------------------------- the invariant

  ghost predicate KeysUnique(rows: seq<Campaign>) {
    forall i, j | 0 <= i < j < |rows| :: rows[i].id != rows[j].id
  }

  ghost predicate DecisionsUnique(approvals: seq<Approval>) {
    forall i, j | 0 <= i < j < |approvals| ::
      !(approvals[i].campaignId == approvals[j].campaignId && approvals[i].actor == approvals[j].actor)
  }

  ghost predicate HasRow(rows: seq<Campaign>, id: string) {
    exists i | 0 <= i < |rows| :: rows[i].id == id
  }

  ghost predicate DecisionsOwned(s: Store) {
    forall k | 0 <= k < |s.approvals| :: HasRow(s.campaigns, s.approvals[k].campaignId)
  }

  ghost predicate NoSelfDecision(row: Campaign, approvals: seq<Approval>) {
    forall k | 0 <= k < |approvals| && approvals[k].campaignId == row.id :: approvals[k].actor != row.generatedBy
  }

  function Decided(row: Campaign, approvals: seq<Approval>): nat {
    CountDecisions(approvals, row.id, Approve) + CountDecisions(approvals, row.id, Reject)
  }

  /** How the approval records of a campaign must look in each of its states. */
  ghost predicate DecisionsFit(row: Campaign, approvals: seq<Approval>) {
    var approves, rejects := CountDecisions(approvals, row.id, Approve), CountDecisions(approvals, row.id, Reject);
    match row.state
    case ApprovalPending => rejects == 0 && approves < row.requiredApprovals
    case Authorized => rejects == 0 && approves <= row.requiredApprovals
    case Completed => rejects == 0 && approves <= row.requiredApprovals
    case Cancelled => rejects == 0 && approves <= row.requiredApprovals
    case Rejected => rejects <= 1 && approves < row.requiredApprovals
    case _ => approves == 0 && rejects == 0
  }

  /** The most writes a campaign can have taken in its present state. */
  function MostWrites(row: Campaign, approvals: seq<Approval>): int {
    match row.state
    case Open => 0
    case EvidenceAccumulating => 1
    case CandidateReady => 2
    case EvaluationPending => 3
    case ApprovalPending => 4 + Decided(row, approvals)
    case Authorized => 4 + row.requiredApprovals
    case _ => 5 + row.requiredApprovals
  }

  ghost predicate RowSound(row: Campaign, approvals: seq<Approval>) {
    && row.requiredApprovals >= 1
    && (row.cooldownUntil.Some? ==> row.state.Rejected? || row.state.Cancelled?)
    && NoSelfDecision(row, approvals)
    && DecisionsFit(row, approvals)
    && 0 <= row.revision <= MostWrites(row, approvals)
  }

  ghost predicate Sound(hash: ContentHash, s: Store) {
    && KeysUnique(s.campaigns)
    && OpenTargetsUnique(s.campaigns)
    && DecisionsUnique(s.approvals)
    && DecisionsOwned(s)
    && (forall i | 0 <= i < |s.campaigns| :: RowSound(s.campaigns[i], s.approvals))
    && Intact(hash, s.events)
  }

  // ---------------------------------------------------------------- what a successful call did

  /** Everything about a row that no write may change. */
  predicate SameIdentity(before: Campaign, after: Campaign) {
    && after.id == before.id && after.target == before.target && after.ctype == before.ctype
    && after.fingerprint == before.fingerprint && after.risk == before.risk
    && after.generatedBy == before.generatedBy && after.requiredApprovals == before.requiredApprovals
    && after.createdAt == before.createdAt && after.metadata == before.metadata
  }

  ghost predicate Reused(s: Store, c: Call, t: Store) {
    c.request.Reserve? && t.campaigns == s.campaigns && t.approvals == s.approvals
  }

  ghost predicate Inserted(s: Store, c: Call, t: Store) {
    && c.request.Reserve?
    && t.approvals == s.approvals
    && t.campaigns == s.campaigns + [NewCampaign(c.request, c.now)]
    && FindById(s.campaigns, c.request.newId).None?
    && FindOpen(s.campaigns, c.request.target).None?
    && c.request.requiredApprovals >= 1
    && (c.request.initialState.Open? || c.request.initialState.EvidenceAccumulating?)
  }

  ghost predicate Rewrote(s: Store, c: Call, t: Store, i: nat) {
    && i < |s.campaigns| && |t.campaigns| == |s.campaigns|
    && t.campaigns == s.campaigns[i := t.campaigns[i]]
    && SameIdentity(s.campaigns[i], t.campaigns[i])
    && t.campaigns[i].revision == s.campaigns[i].revision + 1
    && t.campaigns[i].updatedAt == c.now
    && IsOpen(s.campaigns[i].state)
    && OpenTargetsUnique(t.campaigns)
    && match c.request
       case Reserve(_, _, _, _, _, _, _, _, _) => false
       case Attach(id, candidateRef, artifact, expected) =>
         && t.campaigns[i].candidateRef == Some(candidateRef) && t.campaigns[i].artifact == Some(artifact)
         && id == s.campaigns[i].id && expected == s.campaigns[i].revision
         && t.approvals == s.approvals && CandidateReady in LegalTransitions(s.campaigns[i].state)
         && t.campaigns[i].state == CandidateReady && t.campaigns[i].cooldownUntil == s.campaigns[i].cooldownUntil
       case Transition(id, toState, expected, _, cooldown) =>
         && id == s.campaigns[i].id && expected == s.campaigns[i].revision
         && t.approvals == s.approvals && toState in LegalTransitions(s.campaigns[i].state)
         && t.campaigns[i].candidateRef == s.campaigns[i].candidateRef && t.campaigns[i].artifact == s.campaigns[i].artifact
         && t.campaigns[i].state == toState && t.campaigns[i].cooldownUntil == CooldownAfter(toState, cooldown, c.now)
       case RecordApproval(id, approvalId, decision, reason, expected, cooldown) =>
         && id == s.campaigns[i].id && expected == s.campaigns[i].revision
         && s.campaigns[i].state == ApprovalPending
         && t.campaigns[i].candidateRef == s.campaigns[i].candidateRef && t.campaigns[i].artifact == s.campaigns[i].artifact
         && c.actor != s.campaigns[i].generatedBy && !HasDecided(s.approvals, id, c.actor)
         && t.approvals == s.approvals + [Approval(approvalId, id, c.actor, decision, reason, c.now)]
         && t.campaigns[i].state == StateAfterDecision(s.campaigns[i], t.approvals, decision)
         && t.campaigns[i].cooldownUntil == CooldownAfter(t.campaigns[i].state, cooldown, c.now)
  }

  /** The log grew by one event that carries the call's identifier. */
  ghost predicate LoggedOnce(hash: ContentHash, s: Store, c: Call, t: Store) {
    exists content :: t.events == Append(hash, s.events, content) && !EventIdUsed(s.events, content.eventId) && content.eventId == c.eventId
  }

  lemma ReserveEffect(hash: ContentHash, s: Store, c: Call)
    requires c.request.Reserve? && Transact(hash, s, c).Ok?
    ensures Reused(s, c, Step(hash, s, c)) || Inserted(s, c, Step(hash, s, c))
    ensures LoggedOnce(hash, s, c, Step(hash, s, c))
  {
  }

  lemma AttachEffect(hash: ContentHash, s: Store, c: Call)
    requires c.request.Attach? && Transact(hash, s, c).Ok?
    ensures exists i :: Rewrote(s, c, Step(hash, s, c), i)
    ensures LoggedOnce(hash, s, c, Step(hash, s, c))
  {
    assert Rewrote(s, c, Step(hash, s, c), Fetch(s, c.request.id, c.request.expectedRevision).value);
  }

  lemma TransitionEffect(hash: ContentHash, s: Store, c: Call)
    requires c.request.Transition? && Transact(hash, s, c).Ok?
    ensures exists i :: Rewrote(s, c, Step(hash, s, c), i)
    ensures LoggedOnce(hash, s, c, Step(hash, s, c))
  {
    assert Rewrote(s, c, Step(hash, s, c), Fetch(s, c.request.id, c.request.expectedRevision).value);
  }

  lemma ApprovalEffect(hash: ContentHash, s: Store, c: Call)
    requires c.request.RecordApproval? && Transact(hash, s, c).Ok?
    ensures exists i :: Rewrote(s, c, Step(hash, s, c), i)
    ensures LoggedOnce(hash, s, c, Step(hash, s, c))
  {
    assert Rewrote(s, c, Step(hash, s, c), Fetch(s, c.request.id, c.request.expectedRevision).value);
  }

  /** Every committed call reuses, inserts one row, or rewrites one row; the log grows by one event. */
  lemma EffectOf(hash: ContentHash, s: Store, c: Call)
    requires Transact(hash, s, c).Ok?
    ensures var t := Step(hash, s, c);
            && (Reused(s, c, t) || Inserted(s, c, t) || exists i :: Rewrote(s, c, t, i))
            && LoggedOnce(hash, s, c, t)
  {
    match c.request
    case Reserve(_, _, _, _, _, _, _, _, _) => ReserveEffect(hash, s, c);
    case Attach(_, _, _, _) => AttachEffect(hash, s, c);
    case Transition(_, _, _, _, _) => TransitionEffect(hash, s, c);
    case RecordApproval(_, _, _, _, _, _) => ApprovalEffect(hash, s, c);
  }

  // ---------------------------------------------------------------- preservation

  lemma {:induction false} CountOverAppend(approvals: seq<Approval>, a: Approval, id: string, decision: Decision)
    ensures CountDecisions(approvals + [a], id, decision)
         == CountDecisions(approvals, id, decision) + if a.campaignId == id && a.decision == decision then 1 else 0
  {
    assert (approvals + [a])[..|approvals|] == approvals;
  }

  lemma {:induction false} CountOfStranger(approvals: seq<Approval>, id: string, decision: Decision)
    requires forall k | 0 <= k < |approvals| :: approvals[k].campaignId != id
    ensures CountDecisions(approvals, id, decision) == 0
  {
    if approvals != [] {
      CountOfStranger(approvals[..|approvals| - 1], id, decision);
    }
  }

  /** Decisions about one campaign leave the records of every other campaign alone. */
  lemma OtherRowKeepsSound(row: Campaign, approvals: seq<Approval>, a: Approval)
    requires RowSound(row, approvals) && a.campaignId != row.id
    ensures RowSound(row, approvals + [a])
  {
    CountOverAppend(approvals, a, row.id, Approve);
    CountOverAppend(approvals, a, row.id, Reject);
  }

  lemma MovedRowKeepsSound(before: Campaign, after: Campaign, approvals: seq<Approval>)
    requires RowSound(before, approvals) && SameIdentity(before, after)
    requires after.revision == before.revision + 1 && after.state in LegalTransitions(before.state)
    requires after.cooldownUntil.Some? ==> after.state.Rejected? || after.state.Cancelled?
    ensures RowSound(after, approvals)
  {
  }

  lemma DecidedRowKeepsSound(before: Campaign, after: Campaign, approvals: seq<Approval>, a: Approval)
    requires RowSound(before, approvals) && SameIdentity(before, after) && before.state == ApprovalPending
    requires after.revision == before.revision + 1
    requires a.campaignId == before.id && a.actor != before.generatedBy
    requires after.state == StateAfterDecision(before, approvals + [a], a.decision)
    requires after.cooldownUntil.Some? ==> after.state.Rejected?
    ensures RowSound(after, approvals + [a])
  {
    CountOverAppend(approvals, a, before.id, Approve);
    CountOverAppend(approvals, a, before.id, Reject);
  }

  lemma RewriteKeepsRows(hash: ContentHash, s: Store, c: Call, t: Store, i: nat)
    requires Sound(hash, s) && Rewrote(s, c, t, i)
    ensures forall j | 0 <= j < |t.campaigns| :: RowSound(t.campaigns[j], t.approvals)
  {
    forall j | 0 <= j < |t.campaigns| ensures RowSound(t.campaigns[j], t.approvals) {
      assert RowSound(s.campaigns[j], s.approvals);
      if j != i {
        assert t.campaigns[j] == s.campaigns[j] && s.campaigns[j].id != s.campaigns[i].id;
        if c.request.RecordApproval? {
          OtherRowKeepsSound(s.campaigns[j], s.approvals, t.approvals[|s.approvals|]);
        }
      } else if c.request.RecordApproval? {
        DecidedRowKeepsSound(s.campaigns[i], t.campaigns[i], s.approvals, t.approvals[|s.approvals|]);
      } else {
        MovedRowKeepsSound(s.campaigns[i], t.campaigns[i], s.approvals);
      }
    }
  }

  /** One call keeps the invariant, whatever the call is. */
  lemma StepKeepsSound(hash: ContentHash, s: Store, c: Call)
    requires Sound(hash, s)
    ensures Sound(hash, Step(hash, s, c))
  {
    if Transact(hash, s, c).Ok? {
      var t := Step(hash, s, c);
      EffectOf(hash, s, c);
      var content :| t.events == Append(hash, s.events, content) && !EventIdUsed(s.events, content.eventId) && content.eventId == c.eventId;
      AppendKeepsIntact(hash, s.events, content);
      if Inserted(s, c, t) {
        InsertKeepsRows(hash, s, c, t);
      } else if Reused(s, c, t) {
        assert Sound(hash, t);
      } else {
        var i: nat :| Rewrote(s, c, t, i);
        RewriteKeepsRows(hash, s, c, t, i);
        RewriteKeepsTables(hash, s, c, t, i);
      }
    }
  }

  lemma InsertKeepsRows(hash: ContentHash, s: Store, c: Call, t: Store)
    requires Sound(hash, s) && Inserted(s, c, t)
    ensures KeysUnique(t.campaigns) && OpenTargetsUnique(t.campaigns) && DecisionsOwned(t)
    ensures forall j | 0 <= j < |t.campaigns| :: RowSound(t.campaigns[j], t.approvals)
  {
    var n := |s.campaigns|;
    forall k | 0 <= k < |t.approvals|
      ensures HasRow(t.campaigns, t.approvals[k].campaignId) && t.approvals[k].campaignId != c.request.newId
    {
      assert HasRow(s.campaigns, s.approvals[k].campaignId);
      var i :| 0 <= i < n && s.campaigns[i].id == s.approvals[k].campaignId;
      assert t.campaigns[i].id == t.approvals[k].campaignId;
    }
    CountOfStranger(t.approvals, c.request.newId, Approve);
    CountOfStranger(t.approvals, c.request.newId, Reject);
    forall j | 0 <= j < |t.campaigns| ensures RowSound(t.campaigns[j], t.approvals) {
      assert j < n ==> RowSound(s.campaigns[j], s.approvals);
    }
  }

  lemma RewriteKeepsTables(hash: ContentHash, s: Store, c: Call, t: Store, i: nat)
    requires Sound(hash, s) && Rewrote(s, c, t, i)
    ensures KeysUnique(t.campaigns) && DecisionsUnique(t.approvals) && DecisionsOwned(t)
  {
    assert forall j | 0 <= j < |t.campaigns| :: t.campaigns[j].id == s.campaigns[j].id;
    forall k | 0 <= k < |t.approvals| ensures HasRow(t.campaigns, t.approvals[k].campaignId) {
      if k < |s.approvals| {
        assert HasRow(s.campaigns, s.approvals[k].campaignId);
        var j :| 0 <= j < |s.campaigns| && s.campaigns[j].id == s.approvals[k].campaignId;
        assert t.campaigns[j].id == t.approvals[k].campaignId;
      } else {
        assert t.campaigns[i].id == t.approvals[k].campaignId;
      }
    }
  }

  /** The invariant holds in every reachable store, whatever calls were made and however they interleaved. */
  lemma {:induction false} ReachableIsSound(hash: ContentHash, calls: seq<Call>)
    ensures Sound(hash, Run(hash, EMPTY, calls))
  {
    if calls != [] {
      ReachableIsSound(hash, calls[..|calls| - 1]);
      StepKeepsSound(hash, Run(hash, EMPTY, calls[..|calls| - 1]), calls[|calls| - 1]);
    }
  }
}
