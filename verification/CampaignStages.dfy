/** What the log of every run says about the stages a campaign went through. */
module CampaignStages {
  import opened Prelude
  import opened AuditChain
  import opened CampaignStore
  import opened CampaignInvariants
  import opened CampaignOutcomes

  /** Event `p` records this move of campaign `id`. */
  ghost predicate MoveAt(log: Log, p: nat, id: string, before: State, after: State) {
    && p < |log| && log[p].content.campaignId == id && log[p].content.payload.CampaignTransitioned?
    && log[p].content.payload.fromState == before && log[p].content.payload.toState == after
  }

  ghost predicate EvaluationBegun(log: Log, id: string) {
    exists p :: MoveAt(log, p, id, CandidateReady, EvaluationPending)
  }

  /** An evaluation of the campaign was started and, later, passed. */
  ghost predicate EvaluationPassed(log: Log, id: string) {
    exists p: nat, q: nat | p < q :: MoveAt(log, p, id, CandidateReady, EvaluationPending) && MoveAt(log, q, id, EvaluationPending, ApprovalPending)
  }

  ghost predicate EvaluationOnRecord(row: Campaign, log: Log) {
    && (row.state.EvaluationPending? ==> EvaluationBegun(log, row.id))
    && (row.state.ApprovalPending? || row.state.Authorized? || row.state.Completed? ==> EvaluationPassed(log, row.id))
  }

  ghost predicate EvaluationsOnRecord(s: Store) {
    forall i | 0 <= i < |s.campaigns| :: EvaluationOnRecord(s.campaigns[i], s.events)
  }

  lemma LongerRecord(log: Log, longer: Log, id: string)
    requires log <= longer
    ensures EvaluationBegun(log, id) ==> EvaluationBegun(longer, id)
    ensures EvaluationPassed(log, id) ==> EvaluationPassed(longer, id)
  {
    if EvaluationBegun(log, id) {
      var p: nat :| MoveAt(log, p, id, CandidateReady, EvaluationPending);
      assert MoveAt(longer, p, id, CandidateReady, EvaluationPending);
    }
    if EvaluationPassed(log, id) {
      var p: nat, q: nat :| p < q && MoveAt(log, p, id, CandidateReady, EvaluationPending) && MoveAt(log, q, id, EvaluationPending, ApprovalPending);
      assert MoveAt(longer, p, id, CandidateReady, EvaluationPending) && MoveAt(longer, q, id, EvaluationPending, ApprovalPending);
    }
  }

  lemma MoveKeepsRecord(s: Store, t: Store, c: Call, i: nat)
    requires EvaluationsOnRecord(s) && c.request.Transition? && i < |s.campaigns| == |t.campaigns|
    requires Admits(s.campaigns[i].state, c.request.toState)
    requires t.campaigns[i].id == s.campaigns[i].id == c.request.id && t.campaigns[i].state == c.request.toState
    requires s.events <= t.events && MoveAt(t.events, |s.events|, c.request.id, s.campaigns[i].state, c.request.toState)
    ensures EvaluationOnRecord(t.campaigns[i], t.events)
  {
    var id := c.request.id;
    assert EvaluationOnRecord(s.campaigns[i], s.events);
    LongerRecord(s.events, t.events, id);
    if c.request.toState.ApprovalPending? {
      var p: nat :| MoveAt(s.events, p, id, CandidateReady, EvaluationPending);
      assert MoveAt(t.events, p, id, CandidateReady, EvaluationPending) && p < |s.events|;
    }
  }

  lemma RowsKeepRecord(s: Store, t: Store, i: nat)
    requires EvaluationsOnRecord(s) && s.events <= t.events && i < |t.campaigns| == |s.campaigns|
    requires forall j | 0 <= j < |s.campaigns| && j != i :: t.campaigns[j] == s.campaigns[j]
    requires EvaluationOnRecord(t.campaigns[i], t.events)
    ensures EvaluationsOnRecord(t)
  {
    forall j | 0 <= j < |t.campaigns| ensures EvaluationOnRecord(t.campaigns[j], t.events) {
      if j != i {
        assert EvaluationOnRecord(s.campaigns[j], s.events);
        LongerRecord(s.events, t.events, s.campaigns[j].id);
      }
    }
  }

  lemma TransitionKeepsRecord(hash: ContentHash, s: Store, c: Call, i: nat)
    requires Sound(hash, s) && EvaluationsOnRecord(s) && Answer(hash, s, c).Ok?
    requires c.request.Transition? && RowOf(s, c.request.id, i)
    ensures EvaluationsOnRecord(Step(hash, s, c))
  {
    TransitionOutcome(hash, s, c, i);
    MoveKeepsRecord(s, Step(hash, s, c), c, i);
    RowsKeepRecord(s, Step(hash, s, c), i);
  }

  lemma AttachKeepsRecord(hash: ContentHash, s: Store, c: Call, i: nat)
    requires Sound(hash, s) && EvaluationsOnRecord(s) && Answer(hash, s, c).Ok?
    requires c.request.Attach? && RowOf(s, c.request.id, i)
    ensures EvaluationsOnRecord(Step(hash, s, c))
  {
    AttachOutcome(hash, s, c, i);
    RowsKeepRecord(s, Step(hash, s, c), i);
  }

  lemma DecisionKeepsRecord(hash: ContentHash, s: Store, c: Call, i: nat)
    requires Sound(hash, s) && EvaluationsOnRecord(s) && Answer(hash, s, c).Ok?
    requires c.request.RecordApproval? && RowOf(s, c.request.id, i)
    ensures EvaluationsOnRecord(Step(hash, s, c))
  {
    DecisionOutcome(hash, s, c, i);
    assert EvaluationOnRecord(s.campaigns[i], s.events);
    LongerRecord(s.events, Step(hash, s, c).events, c.request.id);
    RowsKeepRecord(s, Step(hash, s, c), i);
  }

  lemma ReserveKeepsRecord(hash: ContentHash, s: Store, c: Call)
    requires Sound(hash, s) && EvaluationsOnRecord(s) && Answer(hash, s, c).Ok? && c.request.Reserve?
    ensures EvaluationsOnRecord(Step(hash, s, c))
  {
    var t := Step(hash, s, c);
    EffectOf(hash, s, c);
    forall j | 0 <= j < |t.campaigns| ensures EvaluationOnRecord(t.campaigns[j], t.events) {
      if j < |s.campaigns| {
        assert t.campaigns[j] == s.campaigns[j] && EvaluationOnRecord(s.campaigns[j], s.events);
        LongerRecord(s.events, t.events, s.campaigns[j].id);
      }
    }
  }

  lemma StepKeepsRecord(hash: ContentHash, s: Store, c: Call)
    requires Sound(hash, s) && EvaluationsOnRecord(s)
    ensures EvaluationsOnRecord(Step(hash, s, c))
  {
    if Answer(hash, s, c).Ok? {
      if c.request.Reserve? {
        ReserveKeepsRecord(hash, s, c);
      } else {
        var i := FindById(s.campaigns, c.request.id).value;
        match c.request
        case Attach(_, _, _, _) => AttachKeepsRecord(hash, s, c, i);
        case Transition(_, _, _, _, _) => TransitionKeepsRecord(hash, s, c, i);
        case RecordApproval(_, _, _, _, _, _) => DecisionKeepsRecord(hash, s, c, i);
      }
    }
  }

  /**
   * No run skips the evaluation: a campaign that awaits approval, is
   * authorized or completed has on record a move from CANDIDATE_READY to
   * EVALUATION_PENDING and, after it, one from there to APPROVAL_PENDING.
   */
  lemma {:induction false} NoApprovalWithoutEvaluation(hash: ContentHash, calls: seq<Call>)
    ensures EvaluationsOnRecord(Run(hash, EMPTY, calls))
  {
    if calls != [] {
      var earlier := calls[..|calls| - 1];
      NoApprovalWithoutEvaluation(hash, earlier);
      ReachableIsSound(hash, earlier);
      StepKeepsRecord(hash, Run(hash, EMPTY, earlier), calls[|calls| - 1]);
    }
  }

  /** One stage up, or straight to CANDIDATE_READY at the start, or closed where closing is allowed. */
  predicate Climbs(before: State, after: State) {
    && Stage(before) <= 5
    && (after.Completed? ==> before.Authorized?)
    && (after.Rejected? ==> before.CandidateReady? || before.EvaluationPending? || before.ApprovalPending?)
    && (Stage(after) <= 5 ==> Stage(after) == Stage(before) + 1 || (before.Open? && after.CandidateReady?))
  }

  lemma TransitionClimbs(hash: ContentHash, s: Store, c: Call, i: nat)
    requires Sound(hash, s) && Answer(hash, s, c).Ok? && c.request.Transition? && RowOf(s, c.request.id, i)
    ensures Climbs(s.campaigns[i].state, Step(hash, s, c).campaigns[i].state)
  {
    TransitionOutcome(hash, s, c, i);
  }

  lemma AttachClimbs(hash: ContentHash, s: Store, c: Call, i: nat)
    requires Sound(hash, s) && Answer(hash, s, c).Ok? && c.request.Attach? && RowOf(s, c.request.id, i)
    ensures Climbs(s.campaigns[i].state, Step(hash, s, c).campaigns[i].state)
  {
    AttachOutcome(hash, s, c, i);
  }

  lemma VoteClimbsOrWaits(hash: ContentHash, s: Store, c: Call, i: nat)
    requires Sound(hash, s) && Answer(hash, s, c).Ok? && c.request.RecordApproval? && RowOf(s, c.request.id, i)
    ensures s.campaigns[i].state.ApprovalPending?
    ensures var after := Step(hash, s, c).campaigns[i].state; after.ApprovalPending? || Climbs(ApprovalPending, after)
  {
    ApprovalEffect(hash, s, c);
    var k: nat :| Rewrote(s, c, Step(hash, s, c), k);
    assert k == i;
  }

  /**
   * How any committed write moves a campaign: it stays in place only to
   * collect approvals, goes up one stage (or straight to CANDIDATE_READY at
   * the start), is completed only from AUTHORIZED, and is rejected only
   * between having a candidate and being authorized.
   */
  lemma WritesClimbOneStage(hash: ContentHash, s: Store, c: Call, i: nat)
    requires Sound(hash, s) && Answer(hash, s, c).Ok? && !c.request.Reserve? && RowOf(s, c.request.id, i)
    ensures var before, after := s.campaigns[i].state, Step(hash, s, c).campaigns[i].state;
            Climbs(before, after) || (c.request.RecordApproval? && before.ApprovalPending? && after.ApprovalPending?)
  {
    match c.request
    case Attach(_, _, _, _) => AttachClimbs(hash, s, c, i);
    case Transition(_, _, _, _, _) => TransitionClimbs(hash, s, c, i);
    case RecordApproval(_, _, _, _, _, _) => VoteClimbsOrWaits(hash, s, c, i);
  }
}
