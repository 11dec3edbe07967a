/**
 * What each public write answers and leaves behind, stated over the rows of
 * the tables: every branch, in order, with the whole effect of a commit.
 */
module CampaignOutcomes {
  import opened Prelude
  import opened AuditChain
  import opened CampaignStore
  import opened CampaignInvariants
  import opened CampaignApprovals

  // ---------------------------------------------------------------- stages

  /** How far along an open campaign is. */
  function Stage(state: State): nat {
    match state
    case Open => 0
    case EvidenceAccumulating => 1
    case CandidateReady => 2
    case EvaluationPending => 3
    case ApprovalPending => 4
    case Authorized => 5
    case _ => 6
  }

  /** A candidate exists and nothing has been authorized yet. */
  predicate Rejectable(state: State) {
    2 <= Stage(state) <= 4
  }

  /** One stage up, evidence skipped at the start, or closed: completed at the top, rejected on the way, cancelled anywhere. */
  predicate Admits(before: State, after: State) {
    && Stage(before) <= 5
    && match after
       case Cancelled => true
       case Rejected => Rejectable(before)
       case Completed => Stage(before) == 5
       case _ => Stage(after) == Stage(before) + 1 || (Stage(before) == 0 && Stage(after) == 2)
  }

  lemma TableCountsStages(before: State, after: State)
    ensures after in LegalTransitions(before) <==> Admits(before, after)
    ensures IsOpen(before) <==> Stage(before) <= 5
  {
  }

  // ---------------------------------------------------------------- what a call writes

  ghost predicate Fresh(s: Store, eventId: string) {
    forall k | 0 <= k < |s.events| :: s.events[k].content.eventId != eventId
  }

  /** The log grew by exactly one event, by this actor at this time. */
  ghost predicate Logged(s: Store, t: Store, c: Call, id: string, payload: Payload) {
    && |t.events| == |s.events| + 1 && t.events[..|s.events|] == s.events
    && t.events[|s.events|].content == Content(c.eventId, id, payload, c.actor, c.now)
  }

  /** Row `i` became `row` and no other row changed. */
  ghost predicate OnlyRow(s: Store, t: Store, i: nat, row: Campaign) {
    && i < |s.campaigns| == |t.campaigns| && t.campaigns[i] == row
    && forall j | 0 <= j < |s.campaigns| && j != i :: t.campaigns[j] == s.campaigns[j]
  }

  ghost predicate RowOf(s: Store, id: string, i: nat) {
    i < |s.campaigns| && s.campaigns[i].id == id
  }

  lemma FoundByKey(hash: ContentHash, s: Store, id: string, i: nat)
    requires Sound(hash, s) && RowOf(s, id, i)
    ensures FindById(s.campaigns, id) == Some(i)
  {
  }

  /** Rewriting an open row in place commits exactly when the event identifier is new. */
  lemma WriteOutcome(hash: ContentHash, s: Store, i: nat, row: Campaign, approvals: seq<Approval>, content: Content)
    requires OpenTargetsUnique(s.campaigns) && i < |s.campaigns|
    requires IsOpen(s.campaigns[i].state) && row.target == s.campaigns[i].target
    ensures var w := Write(hash, s, i, row, approvals, content);
            && (w.Ok? <==> Fresh(s, content.eventId)) && (w.Err? ==> w.error == EventIdTaken)
            && (w.Ok? ==>
                  && w.value.reply == Reply(row, false)
                  && OnlyRow(s, w.value.store, i, row) && w.value.store.approvals == approvals
                  && |w.value.store.events| == |s.events| + 1 && w.value.store.events[..|s.events|] == s.events
                  && w.value.store.events[|s.events|].content == content)
  {
    assert forall j | 0 <= j < |s.campaigns| :: s.campaigns[i := row][j].target == s.campaigns[j].target;
    assert OpenTargetsUnique(s.campaigns[i := row]);
  }

  /** The deadline a call sets: only by closing without success, and only when it asks for one. */
  ghost predicate DeadlineSet(deadline: Option<int>, after: State, seconds: int, now: int) {
    if (after.Rejected? || after.Cancelled?) && seconds != 0 then deadline == Some(now + seconds) else deadline == None
  }

  /** What a call leaves alone in a row it rewrites. */
  predicate SameButProgress(before: Campaign, after: Campaign) {
    && SameIdentity(before, after) && after.candidateRef == before.candidateRef && after.artifact == before.artifact
  }

  // ---------------------------------------------------------------- transitions

  /**
   * A transition, complete: in a sound store it answers by the first of an
   * old revision, a move that is not admitted and a used event identifier;
   * otherwise it moves exactly this row, sets its deadline and logs the move.
   */
  lemma TransitionOutcome(hash: ContentHash, s: Store, c: Call, i: nat)
    requires Sound(hash, s) && c.request.Transition? && RowOf(s, c.request.id, i)
    ensures var q, row := c.request, s.campaigns[i];
            var t, answer := Step(hash, s, c), Answer(hash, s, c);
            if row.revision != q.expectedRevision then answer == Err(StaleRevision(row.revision)) && t == s
            else if !Admits(row.state, q.toState) then answer == Err(IllegalTransition) && t == s
            else if !Fresh(s, c.eventId) then answer == Err(EventIdTaken) && t == s
            else
              && answer.Ok? && !answer.value.reused && OnlyRow(s, t, i, answer.value.campaign) && t.approvals == s.approvals
              && var after := answer.value.campaign;
                 && SameButProgress(row, after) && after.state == q.toState
                 && after.revision == row.revision + 1 && after.updatedAt == c.now
                 && DeadlineSet(after.cooldownUntil, q.toState, q.cooldownSeconds, c.now)
                 && Logged(s, t, c, q.id, CampaignTransitioned(row.state, q.toState, q.reason, after.cooldownUntil))
  {
    var q, row := c.request, s.campaigns[i];
    FoundByKey(hash, s, q.id, i);
    TableCountsStages(row.state, q.toState);
    if row.revision == q.expectedRevision && Admits(row.state, q.toState) {
      var until := CooldownAfter(q.toState, q.cooldownSeconds, c.now);
      WriteOutcome(hash, s, i, Move(row, q.toState, until, c.now), s.approvals,
                   Content(c.eventId, q.id, CampaignTransitioned(row.state, q.toState, q.reason, until), c.actor, c.now));
    }
  }

  /** The same for attaching a candidate, which only a campaign without one accepts. */
  lemma AttachOutcome(hash: ContentHash, s: Store, c: Call, i: nat)
    requires Sound(hash, s) && c.request.Attach? && RowOf(s, c.request.id, i)
    ensures var q, row := c.request, s.campaigns[i];
            var t, answer := Step(hash, s, c), Answer(hash, s, c);
            if row.revision != q.expectedRevision then answer == Err(StaleRevision(row.revision)) && t == s
            else if Stage(row.state) >= 2 then answer == Err(IllegalTransition) && t == s
            else if !Fresh(s, c.eventId) then answer == Err(EventIdTaken) && t == s
            else
              && answer.Ok? && !answer.value.reused && OnlyRow(s, t, i, answer.value.campaign) && t.approvals == s.approvals
              && var after := answer.value.campaign;
                 && SameIdentity(row, after) && after.state == CandidateReady
                 && after.candidateRef == Some(q.candidateRef) && after.artifact == Some(q.artifact)
                 && after.revision == row.revision + 1 && after.updatedAt == c.now && after.cooldownUntil == row.cooldownUntil
                 && Logged(s, t, c, q.id, CandidateAttached(q.candidateRef))
  {
    var q, row := c.request, s.campaigns[i];
    FoundByKey(hash, s, q.id, i);
    TableCountsStages(row.state, CandidateReady);
    if row.revision == q.expectedRevision && Stage(row.state) < 2 {
      var after := row.(candidateRef := Some(q.candidateRef), artifact := Some(q.artifact), state := CandidateReady,
                        updatedAt := c.now, revision := row.revision + 1);
      WriteOutcome(hash, s, i, after, s.approvals, Content(c.eventId, q.id, CandidateAttached(q.candidateRef), c.actor, c.now));
    }
  }

  /** Without a row under the key, every write to a campaign fails and changes nothing. */
  lemma UnknownOutcome(hash: ContentHash, s: Store, c: Call)
    requires match c.request
             case Reserve(_, _, _, _, _, _, _, _, _) => false
             case Attach(id, _, _, _) => forall i | 0 <= i < |s.campaigns| :: s.campaigns[i].id != id
             case Transition(id, _, _, _, _) => forall i | 0 <= i < |s.campaigns| :: s.campaigns[i].id != id
             case RecordApproval(id, _, _, _, _, _) => forall i | 0 <= i < |s.campaigns| :: s.campaigns[i].id != id
    ensures Answer(hash, s, c) == Err(UnknownCampaign) && Step(hash, s, c) == s
  {
  }

  // ---------------------------------------------------------------- votes

  /** The actor already voted on the campaign, or the record's identifier is taken. */
  ghost predicate VoteTaken(s: Store, id: string, actor: string, approvalId: string) {
    || (exists k | 0 <= k < |s.approvals| :: s.approvals[k].campaignId == id && s.approvals[k].actor == actor)
    || (exists k | 0 <= k < |s.approvals| :: s.approvals[k].approvalId == approvalId)
  }

  /** Where a vote leads, counted in people: one rejection rejects, enough approvers authorize. */
  ghost predicate VoteLeads(s: Store, row: Campaign, actor: string, decision: Decision, after: State) {
    if decision == Reject then after == Rejected
    else if |Approvers(s.approvals, row.id) + {actor}| >= row.requiredApprovals then after == Authorized
    else after == ApprovalPending
  }

  lemma NextStateCountsPeople(hash: ContentHash, s: Store, row: Campaign, a: Approval)
    requires Sound(hash, s) && row.state == ApprovalPending && a.campaignId == row.id
    requires forall k | 0 <= k < |s.approvals| :: !(s.approvals[k].campaignId == row.id && s.approvals[k].actor == a.actor)
    ensures VoteLeads(s, row, a.actor, a.decision, StateAfterDecision(row, s.approvals + [a], a.decision))
  {
    CountIsHeadcount(s.approvals, row.id);
    CountOverAppend(s.approvals, a, row.id, Approve);
    assert a.actor !in Approvers(s.approvals, row.id);
  }

  /**
   * A vote, complete: refused for an old revision, a campaign that does not
   * await approval, its own generator, a second vote or a used identifier;
   * otherwise recorded, with the state its number of approvers calls for.
   */
  lemma DecisionOutcome(hash: ContentHash, s: Store, c: Call, i: nat)
    requires Sound(hash, s) && c.request.RecordApproval? && RowOf(s, c.request.id, i)
    ensures var q, row := c.request, s.campaigns[i];
            var t, answer := Step(hash, s, c), Answer(hash, s, c);
            if row.revision != q.expectedRevision then answer == Err(StaleRevision(row.revision)) && t == s
            else if !row.state.ApprovalPending? then answer == Err(ApprovalRefused(NotAwaitingApproval)) && t == s
            else if c.actor == row.generatedBy then answer == Err(ApprovalRefused(SelfApproval)) && t == s
            else if VoteTaken(s, q.id, c.actor, q.approvalId) then answer == Err(ApprovalRefused(DuplicateDecision)) && t == s
            else if !Fresh(s, c.eventId) then answer == Err(EventIdTaken) && t == s
            else
              && answer.Ok? && !answer.value.reused && OnlyRow(s, t, i, answer.value.campaign)
              && t.approvals == s.approvals + [Approval(q.approvalId, q.id, c.actor, q.decision, q.reason, c.now)]
              && var after := answer.value.campaign;
                 && SameButProgress(row, after) && VoteLeads(s, row, c.actor, q.decision, after.state)
                 && after.revision == row.revision + 1 && after.updatedAt == c.now
                 && DeadlineSet(after.cooldownUntil, after.state, q.cooldownSeconds, c.now)
                 && Logged(s, t, c, q.id, ApprovalRecorded(q.decision, q.reason, after.state))
  {
    var q, row := c.request, s.campaigns[i];
    FoundByKey(hash, s, q.id, i);
    if row.revision == q.expectedRevision && row.state.ApprovalPending? && c.actor != row.generatedBy
       && !VoteTaken(s, q.id, c.actor, q.approvalId) {
      var a := Approval(q.approvalId, q.id, c.actor, q.decision, q.reason, c.now);
      NextStateCountsPeople(hash, s, row, a);
      var next := StateAfterDecision(row, s.approvals + [a], q.decision);
      WriteOutcome(hash, s, i, Move(row, next, CooldownAfter(next, q.cooldownSeconds, c.now), c.now), s.approvals + [a],
                   Content(c.eventId, q.id, ApprovalRecorded(q.decision, q.reason, next), c.actor, c.now));
    }
  }

  // ---------------------------------------------------------------- reservations

  predicate ArgumentsHold(q: Request)
    requires q.Reserve?
  {
    q.requiredApprovals >= 1 && Stage(q.initialState) <= 1
  }

  lemma RefusedArguments(hash: ContentHash, s: Store, c: Call)
    requires c.request.Reserve? && !ArgumentsHold(c.request)
    ensures Answer(hash, s, c) == Err(InvalidArgument) && Step(hash, s, c) == s
  {
  }

  lemma FoundByTarget(hash: ContentHash, s: Store, target: string, i: nat)
    requires Sound(hash, s) && i < |s.campaigns| && s.campaigns[i].target == target && Stage(s.campaigns[i].state) <= 5
    ensures FindOpen(s.campaigns, target) == Some(i)
  {
    var found := FindOpen(s.campaigns, target);
    assert IsOpen(s.campaigns[i].state);
  }

  /**
   * Reserving a target that an open campaign owns: a different fingerprint is
   * a conflict that names the owner and changes nothing; the same one is
   * answered with the owner and recorded as one reuse event about it.
   */
  lemma OwnedTargetOutcome(hash: ContentHash, s: Store, c: Call, i: nat)
    requires Sound(hash, s) && c.request.Reserve? && ArgumentsHold(c.request)
    requires i < |s.campaigns| && s.campaigns[i].target == c.request.target && Stage(s.campaigns[i].state) <= 5
    ensures var q, row := c.request, s.campaigns[i];
            var t, answer := Step(hash, s, c), Answer(hash, s, c);
            if row.fingerprint != q.fingerprint then answer == Err(Conflict(row.id)) && t == s
            else if !Fresh(s, c.eventId) then answer == Err(EventIdTaken) && t == s
            else
              && answer == Ok(Reply(row, true)) && t.campaigns == s.campaigns && t.approvals == s.approvals
              && Logged(s, t, c, row.id, CampaignReused(q.target, q.fingerprint, q.metadata))
  {
    FoundByTarget(hash, s, c.request.target, i);
  }

  ghost predicate TargetFree(s: Store, target: string) {
    forall i | 0 <= i < |s.campaigns| && s.campaigns[i].target == target :: Stage(s.campaigns[i].state) == 6
  }

  /** The row a reservation asks for. */
  predicate AsAsked(q: Request, row: Campaign, now: int)
    requires q.Reserve?
  {
    && row.id == q.newId && row.ctype == q.ctype && row.target == q.target && row.fingerprint == q.fingerprint
    && row.state == q.initialState && row.risk == q.risk && row.generatedBy == q.generatedBy
    && row.requiredApprovals == q.requiredApprovals && row.metadata == q.metadata
    && row.candidateRef == None && row.artifact == None && row.cooldownUntil == None
    && row.createdAt == row.updatedAt == now && row.revision == 0
  }

  lemma FreeIsUnowned(s: Store, target: string, row: Campaign)
    requires OpenTargetsUnique(s.campaigns) && TargetFree(s, target) && row.target == target
    ensures FindOpen(s.campaigns, target).None? && OpenTargetsUnique(s.campaigns + [row])
  {
  }

  /**
   * Reserving a target nobody owns. With no deadline of the target ahead the
   * new row is inserted as asked unless an identifier is taken; a refusal for
   * cooling down names a deadline of the target that is ahead.
   */
  lemma FreeTargetOutcome(hash: ContentHash, s: Store, c: Call)
    requires Sound(hash, s) && c.request.Reserve? && ArgumentsHold(c.request) && TargetFree(s, c.request.target)
    ensures var q := c.request;
            var t, answer := Step(hash, s, c), Answer(hash, s, c);
            var ahead := set i | 0 <= i < |s.campaigns| && s.campaigns[i].target == q.target && s.campaigns[i].cooldownUntil.Some?
                                 && s.campaigns[i].cooldownUntil.value > c.now :: s.campaigns[i].cooldownUntil.value;
            if answer.Err? && answer.error.CoolingDown? then answer.error.until in ahead && t == s
            else if exists i :: RowOf(s, q.newId, i) then answer == Err(DuplicateKey) && t == s
            else if !Fresh(s, c.eventId) then answer == Err(EventIdTaken) && t == s
            else
              && answer.Ok? && !answer.value.reused && AsAsked(q, answer.value.campaign, c.now)
              && t.campaigns == s.campaigns + [answer.value.campaign] && t.approvals == s.approvals
              && Logged(s, t, c, q.newId, CampaignCreated(q.ctype, q.target, q.fingerprint, q.initialState))
    ensures (forall i | 0 <= i < |s.campaigns| && s.campaigns[i].target == c.request.target && s.campaigns[i].cooldownUntil.Some? ::
               s.campaigns[i].cooldownUntil.value <= c.now)
            ==> !(Answer(hash, s, c).Err? && Answer(hash, s, c).error.CoolingDown?)
  {
    FreeIsUnowned(s, c.request.target, NewCampaign(c.request, c.now));
    var found := FindById(s.campaigns, c.request.newId);
    assert found.Some? ==> RowOf(s, c.request.newId, found.value);
  }
}
